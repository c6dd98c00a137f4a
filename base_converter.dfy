/** What every converter shares: the choice and sanitising of the output file name. */
module BaseConverter {
  import opened Wrappers
  import opened Strings
  import opened Paths
  import opened DocumentModel
  import opened Seqs

  /** The name the file name is built from: the explicit base name, the title, the source file's stem, or "document". */
  function NameSource(doc: Document, baseName: Option<string>): (r: string)
    ensures Truthy(baseName) ==> r == baseName.value
    ensures !Truthy(baseName) && Truthy(doc.title) ==> r == doc.title.value
    ensures !Truthy(baseName) && !Truthy(doc.title) && Truthy(doc.metadata.sourceFilename) ==>
      r == Stem(doc.metadata.sourceFilename.value)
    ensures !Truthy(baseName) && !Truthy(doc.title) && !Truthy(doc.metadata.sourceFilename) ==> r == "document"
  {
    if Truthy(baseName) then baseName.value
    else if Truthy(doc.title) then doc.title.value
    else if Truthy(doc.metadata.sourceFilename) then Stem(doc.metadata.sourceFilename.value)
    else "document"
  }

  predicate FilenameChar(c: char) {
    IsAlnum(c) || c == ' ' || c == '-' || c == '_'
  }

  /** The characters of `s` that may appear in a file name, in order. */
  function KeepFilenameChars(s: string): (r: string)
    ensures forall i :: 0 <= i < |r| ==> FilenameChar(r[i])
  {
    if |s| == 0 then "" else (if FilenameChar(s[0]) then [s[0]] else "") + KeepFilenameChars(s[1..])
  }

  lemma {:induction false} KeepFilenameCharsAppend(a: string, b: string)
    ensures KeepFilenameChars(a + b) == KeepFilenameChars(a) + KeepFilenameChars(b)
  {
    if |a| == 0 {
      assert a + b == b;
    } else {
      assert (a + b)[1..] == a[1..] + b;
      KeepFilenameCharsAppend(a[1..], b);
    }
  }

  /** The character filter keeps exactly the file-name characters, in order. */
  lemma {:induction false} KeepFilenameCharsIsFilter(s: string)
    ensures KeepFilenameChars(s) == Filter(s, FilenameChar)
  {
    if |s| > 0 {
      KeepFilenameCharsIsFilter(s[1..]);
    }
  }

  /** Replacing ' ' by "_" turns each space into '_' and keeps every other character in place. */
  lemma {:induction false} ReplaceSpacePointwise(s: string)
    ensures |ReplaceChar(s, ' ', "_")| == |s|
    ensures forall i :: 0 <= i < |s| ==> ReplaceChar(s, ' ', "_")[i] == if s[i] == ' ' then '_' else s[i]
  {
    if |s| > 0 {
      ReplaceSpacePointwise(s[1..]);
      var head := if s[0] == ' ' then "_" else [s[0]];
      var tail := ReplaceChar(s[1..], ' ', "_");
      assert ReplaceChar(s, ' ', "_") == head + tail;
      forall i | 0 <= i < |s| ensures (head + tail)[i] == if s[i] == ' ' then '_' else s[i] {
        if i > 0 {
          assert (head + tail)[i] == tail[i - 1];
          assert s[1..][i - 1] == s[i];
        }
      }
    }
  }

  /**
   * The sanitised name is the stripped file-name characters of `name`, in order, with each
   * space turned into '_'.
   */
  lemma SanitizeSpec(name: string)
    ensures var st := Strip(Filter(name, FilenameChar));
      && |Sanitize(name)| == |st|
      && forall i :: 0 <= i < |st| ==> Sanitize(name)[i] == if st[i] == ' ' then '_' else st[i]
  {
    KeepFilenameCharsIsFilter(name);
    ReplaceSpacePointwise(Strip(KeepFilenameChars(name)));
  }

  /** Filter, strip, then turn each remaining space into '_'. */
  function Sanitize(name: string): string {
    ReplaceChar(Strip(KeepFilenameChars(name)), ' ', "_")
  }

  /** A sanitised name holds only letters, digits, '-' and '_'. */
  lemma SanitizeChars(name: string)
    ensures forall i :: 0 <= i < |Sanitize(name)| ==> IsAlnum(Sanitize(name)[i]) || Sanitize(name)[i] == '-' || Sanitize(name)[i] == '_'
  {
    var kept := KeepFilenameChars(name);
    var stripped := Strip(kept);
    var a := StripIsSlice(kept);
    forall i | 0 <= i < |stripped| ensures FilenameChar(stripped[i]) {
      assert stripped[i] == kept[a + i];
    }
    ReplaceSpaceKeepsChars(stripped);
  }

  lemma {:induction false} ReplaceSpaceKeepsChars(s: string)
    requires forall i :: 0 <= i < |s| ==> FilenameChar(s[i])
    ensures forall i :: 0 <= i < |ReplaceChar(s, ' ', "_")| ==>
      IsAlnum(ReplaceChar(s, ' ', "_")[i]) || ReplaceChar(s, ' ', "_")[i] == '-' || ReplaceChar(s, ' ', "_")[i] == '_'
  {
    if |s| > 0 {
      ReplaceSpaceKeepsChars(s[1..]);
      var head := if s[0] == ' ' then "_" else [s[0]];
      var tail := ReplaceChar(s[1..], ' ', "_");
      assert ReplaceChar(s, ' ', "_") == head + tail;
      assert FilenameChar(s[0]);
      forall i | 0 <= i < |head + tail|
        ensures IsAlnum((head + tail)[i]) || (head + tail)[i] == '-' || (head + tail)[i] == '_'
      {
        if i >= |head| {
          assert (head + tail)[i] == tail[i - |head|];
        }
      }
    }
  }

  /** `get_output_filename`: a sanitised name followed by the converter's extension. */
  function GetOutputFilename(doc: Document, baseName: Option<string>, extension: string): (r: string)
    ensures r == Sanitize(NameSource(doc, baseName)) + extension
    ensures EndsWith(r, extension)
    ensures forall i :: 0 <= i < |r| - |extension| ==> IsAlnum(r[i]) || r[i] == '-' || r[i] == '_'
  {
    var n := Sanitize(NameSource(doc, baseName));
    assert (n + extension)[|n|..] == extension;
    assert forall i :: 0 <= i < |n| ==> IsAlnum(n[i]) || n[i] == '-' || n[i] == '_' by {
      SanitizeChars(NameSource(doc, baseName));
    }
    n + extension
  }

  lemma {:induction false} KeepSpaces(w: string)
    requires forall i :: 0 <= i < |w| ==> w[i] == ' '
    ensures KeepFilenameChars(w) == w
  {
    if |w| > 0 {
      KeepSpaces(w[1..]);
      assert [w[0]] + w[1..] == w;
    }
  }

  /**
   * Spaces around a name are dropped before spaces are turned into underscores, so they
   * never become leading or trailing underscores.
   */
  lemma SanitizeIgnoresSurroundingSpaces(w1: string, name: string, w2: string)
    requires forall i :: 0 <= i < |w1| ==> w1[i] == ' '
    requires forall i :: 0 <= i < |w2| ==> w2[i] == ' '
    ensures Sanitize(w1 + name + w2) == Sanitize(name)
  {
    KeepFilenameCharsAppend(w1 + name, w2);
    KeepFilenameCharsAppend(w1, name);
    KeepSpaces(w1);
    KeepSpaces(w2);
    StripSurroundingSpaces(w1, KeepFilenameChars(name), w2);
  }
}
