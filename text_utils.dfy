/**
 * Text utilities of the document converter: direction detection over Unicode
 * bidirectional classes, script tests, whitespace cleaning, Arabic normalisation,
 * paragraph splitting, word counting, truncation, the heading heuristic, URL
 * extraction and text metrics.
 */
module TextUtils {
  import opened Wrappers
  import opened Strings
  import opened Seqs

  /** The bidirectional character types of Unicode Standard Annex #9, section 3.2, Table 4. */
  datatype BidiClass =
    | L | R | AL
    | EN | ES | ET | AN | CS | NSM
    | BN | B | S | WS | ON
    | LRE | LRO | RLE | RLO | PDF | LRI | RLI | FSI | PDI
    | Unassigned

  /** `unicodedata.bidirectional`, taken from the Unicode character database. */
  const BidiClassOf: char -> BidiClass

  /** `unicodedata.normalize('NFKC', ...)`. */
  const Nfkc: string -> string

  predicate IsRtlChar(c: char) {
    var k := BidiClassOf(c);
    k == R || k == AL || k == AN
  }

  predicate IsLtrChar(c: char) {
    BidiClassOf(c) == L
  }

  /** Number of characters of type R, AL or AN. */
  function RtlCount(s: string): (n: nat)
    ensures n <= |s|
  {
    if |s| == 0 then 0 else RtlCount(s[..|s| - 1]) + (if IsRtlChar(s[|s| - 1]) then 1 else 0)
  }

  /** Number of characters of type L. */
  function LtrCount(s: string): (n: nat)
    ensures n <= |s|
  {
    if |s| == 0 then 0 else LtrCount(s[..|s| - 1]) + (if IsLtrChar(s[|s| - 1]) then 1 else 0)
  }

  /** The direction the counting classifier assigns to a text. */
  function Direction(text: string): string {
    if RtlCount(text) > LtrCount(text) then "rtl" else "ltr"
  }

  /** `detect_text_direction`: one pass counting right-to-left and left-to-right characters. */
  method DetectTextDirection(text: string) returns (r: string)
    ensures r == Direction(text)
    ensures r == "rtl" <==> RtlCount(text) > LtrCount(text)
    ensures r == "rtl" || r == "ltr"
  {
    if |text| == 0 {
      return "ltr";
    }
    var rtl, ltr := 0, 0;
    for i := 0 to |text|
      invariant rtl == RtlCount(text[..i]) && ltr == LtrCount(text[..i])
    {
      assert text[..i + 1][..i] == text[..i];
      var k := BidiClassOf(text[i]);
      if k == R || k == AL || k == AN {
        rtl := rtl + 1;
      } else if k == L {
        ltr := ltr + 1;
      }
    }
    assert text[..|text|] == text;
    if rtl > ltr {
      return "rtl";
    }
    return "ltr";
  }

  lemma {:induction false} CountsAppend(a: string, b: string)
    ensures RtlCount(a + b) == RtlCount(a) + RtlCount(b)
    ensures LtrCount(a + b) == LtrCount(a) + LtrCount(b)
    decreases |b|
  {
    if |b| == 0 {
      assert a + b == a;
    } else {
      assert (a + b)[..|a + b| - 1] == a + b[..|b| - 1];
      CountsAppend(a, b[..|b| - 1]);
    }
  }

  /** Two texts with the same direction keep it when concatenated. */
  lemma DirectionOfConcat(a: string, b: string)
    requires Direction(a) == Direction(b)
    ensures Direction(a + b) == Direction(a)
  {
    CountsAppend(a, b);
  }

  lemma {:induction false} NoRtlCharsCount(text: string)
    requires forall i :: 0 <= i < |text| ==> !IsRtlChar(text[i])
    ensures RtlCount(text) == 0
  {
    if |text| > 0 {
      NoRtlCharsCount(text[..|text| - 1]);
    }
  }

  /** A text without any R, AL or AN character is left-to-right, ties included. */
  lemma NoRtlCharsIsLtr(text: string)
    requires forall i :: 0 <= i < |text| ==> !IsRtlChar(text[i])
    ensures Direction(text) == "ltr"
  {
    NoRtlCharsCount(text);
  }

  predicate IsArabicChar(c: char) {
    ('\U{600}' <= c <= '\U{6FF}') || ('\U{750}' <= c <= '\U{77F}') || ('\U{8A0}' <= c <= '\U{8FF}')
    || ('\U{FB50}' <= c <= '\U{FDFF}') || ('\U{FE70}' <= c <= '\U{FEFF}')
  }

  predicate IsHebrewChar(c: char) {
    ('\U{590}' <= c <= '\U{5FF}') || ('\U{FB1D}' <= c <= '\U{FB4F}')
  }

  /** `is_arabic_text`: some character lies in an Arabic block. */
  function IsArabicText(text: string): (r: bool)
    ensures r <==> exists i :: 0 <= i < |text| && IsArabicChar(text[i])
  {
    if |text| == 0 then false
    else IsArabicChar(text[0]) || (assert forall i :: 0 < i < |text| ==> text[i] == text[1..][i - 1];
                                   IsArabicText(text[1..]))
  }

  /** `reshape` followed by `get_display`: Arabic joining forms and visual reordering, from libraries outside this model. */
  const ArabicDisplay: string -> string

  /** `fix_arabic_text`: Arabic text in its display form; any other text unchanged. */
  function FixArabicText(text: string): (r: string)
    ensures !IsArabicText(text) ==> r == text
    ensures r != text ==> IsArabicText(text) && r == ArabicDisplay(text)
  {
    if |text| == 0 || !IsArabicText(text) then text else ArabicDisplay(text)
  }

  /** `is_hebrew_text`: some character lies in a Hebrew block. */
  function IsHebrewText(text: string): (r: bool)
    ensures r <==> exists i :: 0 <= i < |text| && IsHebrewChar(text[i])
  {
    if |text| == 0 then false
    else IsHebrewChar(text[0]) || (assert forall i :: 0 < i < |text| ==> text[i] == text[1..][i - 1];
                                   IsHebrewText(text[1..]))
  }

  /** `is_rtl_text`: false on empty text, else Arabic or Hebrew. */
  function IsRtlText(text: string): (r: bool)
    ensures r <==> exists i :: 0 <= i < |text| && (IsArabicChar(text[i]) || IsHebrewChar(text[i]))
  {
    |text| > 0 && (IsArabicText(text) || IsHebrewText(text))
  }

  /** Arabic diacritics (tashkeel) removed by normalisation. */
  predicate IsDiacritic(c: char) {
    ('\U{64B}' <= c <= '\U{652}') || c == '\U{670}'
  }

  /** The three alef variants normalisation folds into the bare alef U+0627. */
  predicate IsAlefVariant(c: char) {
    c == '\U{622}' || c == '\U{623}' || c == '\U{625}'
  }

  function RemoveDiacritics(s: string): (r: string)
    ensures |r| <= |s|
    ensures forall i :: 0 <= i < |r| ==> !IsDiacritic(r[i])
    ensures forall x :: x in r ==> x in s
    ensures (forall i :: 0 <= i < |s| ==> !IsDiacritic(s[i])) ==> r == s
  {
    if |s| == 0 then ""
    else (if IsDiacritic(s[0]) then "" else [s[0]]) + RemoveDiacritics(s[1..])
  }

  /** The alef variants folded to a bare alef, one replacement after another. */
  const AlefFolds: seq<(char, string)> := [('\U{622}', "\U{627}"), ('\U{623}', "\U{627}"), ('\U{625}', "\U{627}")]

  lemma {:induction false} FoldAlefsChars(s: string, pairs: seq<(char, string)>)
    requires forall k :: 0 <= k < |pairs| ==> pairs[k].1 == "\U{627}"
    ensures |ReplaceAll(s, pairs)| == |s|
    ensures forall x :: x in ReplaceAll(s, pairs) ==> x in s || x == '\U{627}'
    ensures forall k :: 0 <= k < |pairs| ==> pairs[k].0 != '\U{627}' ==> pairs[k].0 !in ReplaceAll(s, pairs)
    decreases |pairs|
  {
    if |pairs| > 0 {
      var t := ReplaceChar(s, pairs[0].0, pairs[0].1);
      ReplaceCharProps(s, pairs[0].0, pairs[0].1);
      FoldAlefsChars(t, pairs[1..]);
      forall k | 0 <= k < |pairs| && pairs[k].0 != '\U{627}'
        ensures pairs[k].0 !in ReplaceAll(s, pairs)
      {
        if k == 0 {
          assert pairs[0].0 !in t;
        } else {
          assert pairs[1..][k - 1] == pairs[k];
        }
      }
    }
  }

  /** `normalize_arabic_text`: drop diacritics, then fold the alef variants. */
  function NormalizeArabic(text: string): (r: string)
    ensures |r| <= |text|
    ensures forall x :: x in r ==> !IsDiacritic(x) && !IsAlefVariant(x)
  {
    if |text| == 0 then ""
    else
      var n := RemoveDiacritics(text);
      FoldAlefsChars(n, AlefFolds);
      assert AlefFolds[0].0 == '\U{622}' && AlefFolds[1].0 == '\U{623}' && AlefFolds[2].0 == '\U{625}';
      ReplaceAll(n, AlefFolds)
  }

  /** One character under normalisation's alef fold. */
  function FoldAlef(c: char): char {
    if IsAlefVariant(c) then '\U{627}' else c
  }

  lemma {:induction false} RemoveDiacriticsIsFilter(s: string)
    ensures RemoveDiacritics(s) == Filter(s, (c: char) => !IsDiacritic(c))
  {
    if |s| > 0 {
      RemoveDiacriticsIsFilter(s[1..]);
    }
  }

  lemma FoldAlefsChar(c: char)
    ensures ReplaceAll([c], AlefFolds) == [FoldAlef(c)]
  {
    var t1 := ReplaceChar([c], '\U{622}', "\U{627}");
    ReplaceCharSingle(c, '\U{622}', "\U{627}");
    var t2 := ReplaceChar(t1, '\U{623}', "\U{627}");
    ReplaceCharSingle(t1[0], '\U{623}', "\U{627}");
    ReplaceCharSingle(t2[0], '\U{625}', "\U{627}");
    assert AlefFolds[1..][1..][1..] == [];
  }

  lemma {:induction false} FoldAlefsPointwise(s: string)
    ensures ReplaceAll(s, AlefFolds) == Map(s, FoldAlef)
  {
    if |s| == 0 {
      ReplaceAllAbsent(s, AlefFolds);
    } else {
      assert s == [s[0]] + s[1..];
      ReplaceAllAppend([s[0]], s[1..], AlefFolds);
      FoldAlefsChar(s[0]);
      FoldAlefsPointwise(s[1..]);
    }
  }

  /**
   * Normalisation keeps every character that is not a diacritic, in order, and turns
   * each of U+0622, U+0623 and U+0625 into the bare alef U+0627.
   */
  lemma NormalizeArabicSpec(text: string)
    ensures NormalizeArabic(text) == Map(Filter(text, (c: char) => !IsDiacritic(c)), FoldAlef)
  {
    RemoveDiacriticsIsFilter(text);
    FoldAlefsPointwise(RemoveDiacritics(text));
  }

  /** Normalising twice is the same as normalising once. */
  lemma NormalizeArabicIdempotent(text: string)
    ensures NormalizeArabic(NormalizeArabic(text)) == NormalizeArabic(text)
  {
    var n := NormalizeArabic(text);
    if |n| > 0 {
      assert RemoveDiacritics(n) == n;
      ReplaceAllAbsent(n, AlefFolds);
    }
  }

  /** Each line of a text with its whitespace runs collapsed to one space. */
  function CollapseLines(lines: seq<string>): (r: seq<string>)
    ensures |r| == |lines|
    ensures forall k :: 0 <= k < |r| ==> r[k] == CollapseSpaces(lines[k])
  {
    if |lines| == 0 then [] else [CollapseSpaces(lines[0])] + CollapseLines(lines[1..])
  }

  /** What `clean_text` returns. */
  function CleanTextSpec(text: string, preserveNewlines: bool): string {
    if |text| == 0 then ""
    else if preserveNewlines then Strip(Join(CollapseLines(SplitOn(Nfkc(text), '\n')), "\n"))
    else Strip(CollapseSpaces(Nfkc(text)))
  }

  /** `clean_text`: normalise, collapse the whitespace of each line (or of the whole text), strip. */
  method CleanText(text: string, preserveNewlines: bool) returns (r: string)
    ensures r == CleanTextSpec(text, preserveNewlines)
  {
    if |text| == 0 {
      return "";
    }
    var t := Nfkc(text);
    if preserveNewlines {
      var lines := SplitOn(t, '\n');
      var cleaned: seq<string> := [];
      for k := 0 to |lines|
        invariant cleaned == CollapseLines(lines[..k])
      {
        assert lines[..k + 1][..k] == lines[..k];
        CollapseLinesSnoc(lines[..k], lines[k]);
        assert lines[..k] + [lines[k]] == lines[..k + 1];
        cleaned := cleaned + [CollapseSpaces(lines[k])];
      }
      assert lines[..|lines|] == lines;
      t := Join(cleaned, "\n");
    } else {
      t := CollapseSpaces(t);
    }
    r := Strip(t);
  }

  lemma CollapseLinesSnoc(lines: seq<string>, line: string)
    ensures CollapseLines(lines + [line]) == CollapseLines(lines) + [CollapseSpaces(line)]
  {
  }

  /**
   * The shape of cleaned multi-line text: every whitespace character is a newline or
   * a single space between two non-whitespace characters.
   */
  predicate CleanShape(s: string) {
    forall i :: 0 <= i < |s| ==> SpaceFits(s, i)
  }

  /** The whitespace character at `i`, if any, is a newline or a single space between two visible characters. */
  predicate SpaceFits(s: string, i: nat)
    requires i < |s|
  {
    s[i] == '\n' || SingleSpaceAt(s, i)
  }

  lemma {:induction false} JoinCollapsedLinesShape(ls: seq<string>)
    requires forall k :: 0 <= k < |ls| ==> Collapsed(ls[k])
    ensures CleanShape(Join(ls, "\n"))
  {
    if |ls| > 1 {
      JoinCollapsedLinesShape(ls[1..]);
      var a, j := ls[0], Join(ls[1..], "\n");
      var s := a + "\n" + j;
      assert Join(ls, "\n") == s;
      forall i | 0 <= i < |s|
        ensures SpaceFits(s, i)
      {
        if i < |a| {
          assert s[i] == a[i];
          if IsSpace(a[i]) {
            assert SingleSpaceAt(a, i);
            assert s[i - 1] == a[i - 1] && s[i + 1] == a[i + 1];
          }
        } else if i > |a| {
          var m := i - |a| - 1;
          assert s[i] == j[m];
          assert SpaceFits(j, m);
          if IsSpace(j[m]) && j[m] != '\n' {
            assert s[i - 1] == j[m - 1] && s[i + 1] == j[m + 1];
          }
        }
      }
    }
  }

  lemma StripKeepsCleanShape(s: string)
    requires CleanShape(s)
    ensures CleanShape(Strip(s))
  {
    var a := StripIsSlice(s);
    var r := Strip(s);
    forall i | 0 <= i < |r|
      ensures SpaceFits(r, i)
    {
      var j := a + i;
      assert r[i] == s[j];
      if IsSpace(r[i]) && r[i] != '\n' {
        assert SpaceFits(s, j);
        assert a <= j - 1 && j + 1 < a + |r|;
        assert r[i - 1] == s[j - 1] && r[i + 1] == s[j + 1];
      }
    }
  }

  /**
   * Cleaned text keeping newlines has no whitespace at either end, and inside it every
   * whitespace character is a newline or a single space between two visible characters.
   */
  lemma CleanTextPreservingNewlinesShape(text: string)
    ensures var r := CleanTextSpec(text, true);
      CleanShape(r) && (|r| > 0 ==> !IsSpace(r[0]) && !IsSpace(r[|r| - 1]))
  {
    if |text| > 0 {
      var ls := CollapseLines(SplitOn(Nfkc(text), '\n'));
      forall k | 0 <= k < |ls| ensures Collapsed(ls[k]) {
        CollapseSpacesCollapsed(SplitOn(Nfkc(text), '\n')[k]);
      }
      JoinCollapsedLinesShape(ls);
      StripKeepsCleanShape(Join(ls, "\n"));
    }
  }

  /** Cleaned text not keeping newlines is one collapsed line: no newline and no double space. */
  lemma CleanTextSingleLine(text: string)
    ensures Collapsed(CleanTextSpec(text, false))
    ensures '\n' !in CleanTextSpec(text, false)
  {
    if |text| > 0 {
      var c := CollapseSpaces(Nfkc(text));
      CollapseSpacesCollapsed(Nfkc(text));
      JoinWordsCollapsed(Words(Nfkc(text)));
      StripOfStripped(c);
      forall i | 0 <= i < |c|
        ensures c[i] != '\n'
      {
        assert SingleSpaceAt(c, i);
      }
    }
  }

  /** The end of the maximal run of whitespace starting at `k`. */
  function SpaceRunEnd(s: string, k: nat): (e: nat)
    requires k <= |s|
    ensures k <= e <= |s|
    ensures forall j :: k <= j < e ==> IsSpace(s[j])
    ensures e == |s| || !IsSpace(s[e])
    decreases |s| - k
  {
    if k == |s| || !IsSpace(s[k]) then k else SpaceRunEnd(s, k + 1)
  }

  /** The last index in [lo, hi) holding a newline. */
  function LastNewline(s: string, lo: nat, hi: nat): (r: Option<nat>)
    requires lo <= hi <= |s|
    ensures r.Some? ==> lo <= r.value < hi && s[r.value] == '\n'
    ensures r.Some? ==> forall j :: r.value < j < hi ==> s[j] != '\n'
    ensures r.None? ==> forall j :: lo <= j < hi ==> s[j] != '\n'
    decreases hi - lo
  {
    if hi == lo then None else if s[hi - 1] == '\n' then Some(hi - 1) else LastNewline(s, lo, hi - 1)
  }

  /**
   * Where a match of the blank-line separator `\n\s*\n` that starts at `p` ends, if one
   * starts there: the greedy `\s*` backs off to the last newline of the whitespace run.
   */
  function BlankLineMatchEnd(s: string, p: nat): (r: Option<nat>)
    requires p < |s|
    ensures r.Some? ==> p + 2 <= r.value <= |s| && s[p] == '\n' && s[r.value - 1] == '\n'
    ensures r.Some? ==> forall j :: p <= j < r.value ==> IsSpace(s[j])
    ensures s[p] == '\n' && p + 1 < |s| && s[p + 1] == '\n' ==> r.Some?
  {
    if s[p] != '\n' then None
    else
      match LastNewline(s, p + 1, SpaceRunEnd(s, p + 1))
      case None => None
      case Some(q) => Some(q + 1)
  }

  /** `re.split(r'\n\s*\n', s)`, scanning from `p` with the current piece starting at `start`. */
  function RawSplit(s: string, start: nat, p: nat): (r: seq<string>)
    requires start <= p <= |s|
    ensures |r| >= 1
    decreases |s| - p
  {
    if p == |s| then [s[start..]]
    else
      match BlankLineMatchEnd(s, p)
      case Some(e) => [s[start..p]] + RawSplit(s, e, e)
      case None => RawSplit(s, start, p + 1)
  }

  /** The stripped pieces that are not empty. */
  function KeepStripped(pieces: seq<string>): (r: seq<string>)
    ensures |r| <= |pieces|
    ensures forall k :: 0 <= k < |r| ==> |r[k]| > 0 && Strip(r[k]) == r[k]
  {
    if |pieces| == 0 then []
    else
      var p := Strip(pieces[0]);
      StripOfStripped(p);
      if |p| > 0 then [p] + KeepStripped(pieces[1..]) else KeepStripped(pieces[1..])
  }

  /** `split_into_paragraphs`: pieces between blank lines, stripped, empty ones dropped. */
  function SplitIntoParagraphs(text: string): (r: seq<string>)
    ensures |text| == 0 ==> r == []
    ensures forall k :: 0 <= k < |r| ==> |r[k]| > 0 && Strip(r[k]) == r[k]
  {
    if |text| == 0 then [] else KeepStripped(RawSplit(text, 0, 0))
  }

  lemma {:induction false} RawSplitNoNewline(s: string, p: nat)
    requires p <= |s|
    requires forall j :: p <= j < |s| ==> s[j] != '\n'
    ensures RawSplit(s, 0, p) == [s]
    decreases |s| - p
  {
    if p < |s| {
      RawSplitNoNewline(s, p + 1);
    } else {
      assert s[0..] == s;
    }
  }

  /** A text without newlines is a single paragraph (or none, when it is all whitespace). */
  lemma SingleLineOneParagraph(text: string)
    requires |text| > 0 && '\n' !in text
    ensures SplitIntoParagraphs(text) == if Strip(text) == [] then [] else [Strip(text)]
  {
    RawSplitNoNewline(text, 0);
    assert RawSplit(text, 0, 0)[1..] == [];
  }

  /** Positions without a newline never start a blank-line match, so the scan passes over them. */
  lemma {:induction false} RawSplitSkip(s: string, start: nat, p: nat, q: nat)
    requires start <= p <= q <= |s|
    requires forall j :: p <= j < q ==> s[j] != '\n'
    ensures RawSplit(s, start, p) == RawSplit(s, start, q)
    decreases q - p
  {
    if p < q {
      RawSplitSkip(s, start, p + 1, q);
    }
  }

  /** A blank line made of exactly two newlines, followed by a piece with a non-space character, ends right after them. */
  lemma BlankLineAtSeparator(s: string, p: nat, w: string)
    requires p + 2 + |w| <= |s| && s[p] == '\n' && s[p + 1] == '\n'
    requires s[p + 2..p + 2 + |w|] == w && '\n' !in w && !AllSpace(w)
    ensures BlankLineMatchEnd(s, p) == Some(p + 2)
  {
    var i :| 0 <= i < |w| && !IsSpace(w[i]);
    assert s[p + 2 + i] == w[i];
    var e := BlankLineMatchEnd(s, p).value;
    if e != p + 2 {
      assert false;
    }
  }

  /** The scan passes over a newline-free piece that starts at `start`. */
  lemma RawSplitOverPiece(s: string, start: nat, w: string)
    requires start + |w| <= |s| && s[start..start + |w|] == w && '\n' !in w
    ensures RawSplit(s, start, start) == RawSplit(s, start, start + |w|)
  {
    forall j | start <= j < start + |w| ensures s[j] != '\n' {
      assert s[j] == w[j - start];
    }
    RawSplitSkip(s, start, start, start + |w|);
  }

  /** Where the first blank-line separator of a join sits, and what follows it. */
  lemma JoinFirstSeparator(s: string, start: nat, ps: seq<string>)
    requires start <= |s| && |ps| >= 2 && s[start..] == Join(ps, "\n\n")
    ensures start + |ps[0]| + 2 + |ps[1]| <= |s|
    ensures s[start..start + |ps[0]|] == ps[0]
    ensures s[start + |ps[0]|] == '\n' && s[start + |ps[0]| + 1] == '\n'
    ensures s[start + |ps[0]| + 2..] == Join(ps[1..], "\n\n")
    ensures s[start + |ps[0]| + 2..start + |ps[0]| + 2 + |ps[1]|] == ps[1]
  {
    var p := start + |ps[0]|;
    var rest := Join(ps[1..], "\n\n");
    assert s[start..] == ps[0] + "\n\n" + rest;
    assert |rest| >= |ps[1]| && rest[..|ps[1]|] == ps[1] by {
      if |ps[1..]| > 1 { assert rest == ps[1] + "\n\n" + Join(ps[2..], "\n\n"); }
    }
    assert s[p + 2..] == rest;
  }

  /** One step of the scan over a join: the first piece, then the scan resumes after the first blank line. */
  lemma RawSplitJoinStep(s: string, start: nat, ps: seq<string>)
    requires start <= |s| && |ps| >= 2 && s[start..] == Join(ps, "\n\n")
    requires '\n' !in ps[0] && '\n' !in ps[1] && !AllSpace(ps[1])
    ensures start + |ps[0]| + 2 <= |s|
    ensures s[start + |ps[0]| + 2..] == Join(ps[1..], "\n\n")
    ensures RawSplit(s, start, start) == [ps[0]] + RawSplit(s, start + |ps[0]| + 2, start + |ps[0]| + 2)
  {
    var p := start + |ps[0]|;
    JoinFirstSeparator(s, start, ps);
    RawSplitOverPiece(s, start, ps[0]);
    BlankLineAtSeparator(s, p, ps[1]);
  }

  /**
   * Newline-free pieces joined by blank lines split back into those pieces, provided
   * every piece after the first holds a non-space character (otherwise the greedy
   * `\s*` would swallow it into the separator).
   */
  lemma {:induction false} RawSplitOfJoin(s: string, start: nat, ps: seq<string>)
    requires start <= |s| && |ps| >= 1
    requires s[start..] == Join(ps, "\n\n")
    requires forall k :: 0 <= k < |ps| ==> '\n' !in ps[k]
    requires forall k :: 1 <= k < |ps| ==> !AllSpace(ps[k])
    ensures RawSplit(s, start, start) == ps
    decreases |ps|
  {
    if |ps| == 1 {
      assert s[start..start + |ps[0]|] == ps[0];
      RawSplitOverPiece(s, start, ps[0]);
    } else {
      RawSplitJoinStep(s, start, ps);
      var tail := ps[1..];
      assert forall k :: 0 <= k < |tail| ==> tail[k] == ps[k + 1];
      RawSplitOfJoin(s, start + |ps[0]| + 2, tail);
      assert ps == [ps[0]] + tail;
    }
  }

  lemma {:induction false} KeepStrippedIsFilter(pieces: seq<string>)
    ensures KeepStripped(pieces) == Filter(Map(pieces, Strip), (k: string) => k != "")
  {
    if |pieces| > 0 {
      KeepStrippedIsFilter(pieces[1..]);
      assert Map(pieces, Strip)[1..] == Map(pieces[1..], Strip);
    }
  }

  /**
   * Paragraphs without newlines, separated by blank lines, come back stripped and with
   * the blank ones dropped, in order.
   */
  lemma SplitIntoParagraphsOfJoin(ps: seq<string>)
    requires |ps| >= 1
    requires forall k :: 0 <= k < |ps| ==> '\n' !in ps[k]
    requires forall k :: 1 <= k < |ps| ==> !AllSpace(ps[k])
    ensures SplitIntoParagraphs(Join(ps, "\n\n")) == Filter(Map(ps, Strip), (k: string) => k != "")
  {
    var text := Join(ps, "\n\n");
    KeepStrippedIsFilter(ps);
    if |text| == 0 {
      JoinEmptyPieces(ps);
    } else {
      assert text[0..] == text;
      RawSplitOfJoin(text, 0, ps);
    }
  }

  /** Pieces joined by blank lines give "" only when there is one empty piece. */
  lemma JoinEmptyPieces(ps: seq<string>)
    requires |ps| >= 1 && Join(ps, "\n\n") == ""
    ensures ps == [""] && KeepStripped(ps) == []
  {
    assert Strip("") == "";
  }

  /** `count_words`: the number of whitespace-separated words. */
  function CountWords(text: string): nat {
    |Words(text)|
  }

  /** Words joined by single spaces are counted one by one. */
  lemma CountWordsOfJoin(ws: seq<string>)
    requires forall k :: 0 <= k < |ws| ==> |ws[k]| > 0 && NoSpace(ws[k])
    ensures CountWords(Join(ws, " ")) == |ws|
  {
    WordsOfJoin(ws);
  }

  /** Collapsing whitespace never changes the word count. */
  lemma CountWordsOfCollapse(text: string)
    ensures CountWords(CollapseSpaces(text)) == CountWords(text)
  {
    WordsOfJoin(Words(text));
  }

  /** `truncate_text`: a text longer than `maxLength` keeps a prefix and ends with `suffix`. */
  function TruncateText(text: string, maxLength: int, suffix: string): (r: string)
    ensures |text| == 0 || |text| <= maxLength ==> r == text
    ensures |text| > 0 && |text| > maxLength ==> EndsWith(r, suffix)
    ensures |text| > 0 && |text| > maxLength && maxLength >= |suffix| ==>
      |r| == maxLength && r[..maxLength - |suffix|] == text[..maxLength - |suffix|]
  {
    if |text| == 0 || |text| <= maxLength then text
    else
      var r := SliceTo(text, maxLength - |suffix|) + suffix;
      assert r[|r| - |suffix|..] == suffix;
      r
  }

  /** `is_heading`: a non-empty stripped single line of bounded length not ending in a lone '.'. */
  function IsHeading(text: string, minLength: int, maxLength: int): (r: bool)
    ensures r ==> |text| > 0 && '\n' !in Strip(text)
    ensures r ==> minLength <= |Strip(text)| <= maxLength
    ensures r ==> !EndsWith(Strip(text), ".") || EndsWith(Strip(text), "...")
    ensures (|text| > 0 && minLength <= |Strip(text)| <= maxLength && '\n' !in Strip(text)
      && (!EndsWith(Strip(text), ".") || EndsWith(Strip(text), "..."))) ==> r
  {
    if |text| == 0 then false
    else
      var t := Strip(text);
      if |t| < minLength || |t| > maxLength then false
      else if EndsWith(t, ".") && !EndsWith(t, "...") then false
      else if '\n' in t then false
      else true
  }

  /** The heading test looks only at the stripped text: surrounding whitespace never matters. */
  lemma IsHeadingIgnoresSurroundingSpace(w1: string, text: string, w2: string, minLength: int, maxLength: int)
    requires AllSpace(w1) && AllSpace(w2) && |text| > 0
    ensures IsHeading(w1 + text + w2, minLength, maxLength) == IsHeading(text, minLength, maxLength)
  {
    StripSurroundingSpaces(w1, text, w2);
  }

  /** A URL found in a text, with its offsets in that text. */
  datatype UrlMatch = UrlMatch(url: string, start: nat, end: nat)

  /** The length of the scheme or `www.` that can open a URL match at `p`, or 0. */
  function UrlPrefixLength(s: string, p: nat): (n: nat)
    ensures n == 0 || n == 4 || n == 7 || n == 8
    ensures n > 0 ==> p + n <= |s|
    ensures n == 8 <==> OccursAt(s, "https://", p)
    ensures n == 7 ==> OccursAt(s, "http://", p)
    ensures n == 4 ==> OccursAt(s, "www.", p)
    ensures n == 0 <==> !OccursAt(s, "https://", p) && !OccursAt(s, "http://", p) && !OccursAt(s, "www.", p)
  {
    if OccursAt(s, "https://", p) then 8
    else if OccursAt(s, "http://", p) then 7
    else if OccursAt(s, "www.", p) then 4
    else 0
  }

  lemma UrlPrefixNoSpace(s: string, p: nat)
    ensures forall j :: p <= j < p + UrlPrefixLength(s, p) ==> !IsSpace(s[j])
  {
    var n := UrlPrefixLength(s, p);
    forall j | p <= j < p + n ensures !IsSpace(s[j]) {
      assert s[j] == s[p..p + n][j - p];
    }
  }

  /** One item of `(?:[-\w.]|(?:%[\da-fA-F]{2}))` can start at `q`. */
  predicate UrlBodyStartsAt(s: string, q: nat) {
    q < |s| && (s[q] == '-' || s[q] == '.' || IsWordChar(s[q])
               || (s[q] == '%' && q + 2 < |s| && IsHexDigit(s[q + 1]) && IsHexDigit(s[q + 2])))
  }

  /** The end of the maximal run of non-whitespace characters starting at `k`. */
  function NonSpaceRunEnd(s: string, k: nat): (e: nat)
    requires k <= |s|
    ensures k <= e <= |s|
    ensures forall j :: k <= j < e ==> !IsSpace(s[j])
    ensures e == |s| || IsSpace(s[e])
    decreases |s| - k
  {
    if k == |s| || IsSpace(s[k]) then k else NonSpaceRunEnd(s, k + 1)
  }

  /** Where the URL pattern's match starting at `p` ends, if it matches there. */
  function UrlMatchEnd(s: string, p: nat): (r: Option<nat>)
    requires p <= |s|
    ensures r.Some? <==> UrlPrefixLength(s, p) > 0 && UrlBodyStartsAt(s, p + UrlPrefixLength(s, p))
    ensures r.Some? ==> p < r.value <= |s| && NoSpace(s[p..r.value])
    ensures r.Some? ==> r.value == |s| || IsSpace(s[r.value])
  {
    var n := UrlPrefixLength(s, p);
    if n > 0 && UrlBodyStartsAt(s, p + n) then
      var e := NonSpaceRunEnd(s, p);
      UrlPrefixNoSpace(s, p);
      assert !IsSpace(s[p + n]);
      Some(e)
    else None
  }

  /**
   * `m` is the pattern's match at `m.start` (so it runs to the end of the non-space run),
   * and its URL is the matched slice, with "https://" put in front when the slice does
   * not start with "http".
   */
  predicate UrlText(s: string, m: UrlMatch) {
    m.start < m.end <= |s|
    && UrlMatchEnd(s, m.start) == Some(m.end)
    && NoSpace(s[m.start..m.end])
    && m.url == (if StartsWith(s[m.start..m.end], "http") then s[m.start..m.end]
                 else "https://" + s[m.start..m.end])
  }

  /** `finditer` over the URL pattern from position `p`. */
  function ExtractUrlsFrom(s: string, p: nat): (r: seq<UrlMatch>)
    requires p <= |s|
    ensures forall k :: 0 <= k < |r| ==> p <= r[k].start < r[k].end <= |s|
    ensures forall k :: 0 <= k < |r| - 1 ==> r[k].end <= r[k + 1].start
    decreases |s| - p
  {
    if p == |s| then []
    else
      match UrlMatchEnd(s, p)
      case None => ExtractUrlsFrom(s, p + 1)
      case Some(e) =>
        var m := s[p..e];
        var url := if StartsWith(m, "http") then m else "https://" + m;
        [UrlMatch(url, p, e)] + ExtractUrlsFrom(s, e)
  }

  /**
   * `extract_urls`: every match, in order and without overlap, with `https://` put in
   * front of the ones that start with `www.`.
   */
  function ExtractUrls(text: string): (r: seq<UrlMatch>)
    ensures |text| == 0 ==> r == []
    ensures forall k :: 0 <= k < |r| - 1 ==> r[k].end <= r[k + 1].start
  {
    if |text| == 0 then [] else ExtractUrlsFrom(text, 0)
  }

  /**
   * Every reported match is a match of the URL pattern, and its url is the matched text,
   * put behind "https://" when it does not start with "http".
   */
  lemma ExtractUrlsSound(text: string)
    ensures forall k :: 0 <= k < |ExtractUrls(text)| ==> UrlText(text, ExtractUrls(text)[k])
  {
    if |text| > 0 {
      assert ExtractUrls(text) == ExtractUrlsFrom(text, 0);
      ExtractUrlsFromSound(text, 0);
    }
  }

  /** Soundness of `finditer` from `p`: every reported match is a pattern match with its url text. */
  lemma {:induction false} ExtractUrlsFromSound(s: string, p: nat)
    requires p <= |s|
    ensures forall k :: 0 <= k < |ExtractUrlsFrom(s, p)| ==> UrlText(s, ExtractUrlsFrom(s, p)[k])
    decreases |s| - p
  {
    if p < |s| {
      var r := ExtractUrlsFrom(s, p);
      match UrlMatchEnd(s, p)
      case None =>
        ExtractUrlsFromSound(s, p + 1);
      case Some(e) =>
        var rest := ExtractUrlsFrom(s, e);
        ExtractUrlsFromSound(s, e);
        assert UrlText(s, r[0]);
        forall k | 1 <= k < |r| ensures UrlText(s, r[k]) {
          assert r[k] == rest[k - 1];
        }
    }
  }

  /**
   * Completeness of `finditer` from `p`: a position where the pattern matches and that no
   * earlier match covers is the start of one of the reported matches.
   */
  lemma {:induction false} ExtractUrlsFromComplete(s: string, p: nat, q: nat)
    requires p <= q < |s| && UrlMatchEnd(s, q).Some?
    requires forall k :: 0 <= k < |ExtractUrlsFrom(s, p)| ==>
      !(ExtractUrlsFrom(s, p)[k].start < q < ExtractUrlsFrom(s, p)[k].end)
    ensures exists k :: 0 <= k < |ExtractUrlsFrom(s, p)| && ExtractUrlsFrom(s, p)[k].start == q
    decreases |s| - p
  {
    var r := ExtractUrlsFrom(s, p);
    if p < q {
      match UrlMatchEnd(s, p)
      case None =>
        ExtractUrlsFromComplete(s, p + 1, q);
      case Some(e) =>
        assert r[0].start == p && r[0].end == e;
        var rest := ExtractUrlsFrom(s, e);
        assert r == r[..1] + rest;
        forall k | 0 <= k < |rest| ensures !(rest[k].start < q < rest[k].end) {
          assert rest[k] == r[k + 1];
        }
        ExtractUrlsFromComplete(s, e, q);
        var k :| 0 <= k < |rest| && rest[k].start == q;
        assert r[k + 1] == rest[k];
    }
  }

  /** `extract_urls` reports every match position not covered by an earlier match. */
  lemma ExtractUrlsComplete(text: string, q: nat)
    requires q < |text| && UrlMatchEnd(text, q).Some?
    requires forall k :: 0 <= k < |ExtractUrls(text)| ==>
      !(ExtractUrls(text)[k].start < q < ExtractUrls(text)[k].end)
    ensures exists k :: 0 <= k < |ExtractUrls(text)| && ExtractUrls(text)[k].start == q
  {
    var r := ExtractUrls(text);
    assert r == ExtractUrlsFrom(text, 0);
    ExtractUrlsFromComplete(text, 0, q);
  }

  lemma {:induction false} NoUrlPrefixNoUrlsFrom(s: string, p: nat)
    requires p <= |s|
    requires forall j :: p <= j <= |s| ==> UrlPrefixLength(s, j) == 0
    ensures ExtractUrlsFrom(s, p) == []
    decreases |s| - p
  {
    if p < |s| {
      NoUrlPrefixNoUrlsFrom(s, p + 1);
    }
  }

  /** A text in which no `http://`, `https://` or `www.` occurs has no URL. */
  lemma NoUrlPrefixNoUrls(text: string)
    requires !Contains(text, "http://") && !Contains(text, "https://") && !Contains(text, "www.")
    ensures ExtractUrls(text) == []
  {
    forall j | 0 <= j <= |text| ensures UrlPrefixLength(text, j) == 0 {
    }
    NoUrlPrefixNoUrlsFrom(text, 0);
  }

  /** The findings of `get_text_metrics`. */
  datatype TextMetrics = TextMetrics(
    totalChars: nat,
    arabicChars: nat,
    englishChars: nat,
    wordCount: nat,
    lineCount: nat,
    direction: string,
    isRtl: bool)

  /** The narrower Arabic class the metrics count (no presentation forms). */
  predicate IsArabicMetricChar(c: char) {
    ('\U{600}' <= c <= '\U{6FF}') || ('\U{750}' <= c <= '\U{77F}') || ('\U{8A0}' <= c <= '\U{8FF}')
  }

  function ArabicMetricCount(s: string): (n: nat)
    ensures n <= |s|
  {
    if |s| == 0 then 0 else (if IsArabicMetricChar(s[0]) then 1 else 0) + ArabicMetricCount(s[1..])
  }

  function AsciiLetterCount(s: string): (n: nat)
    ensures n <= |s|
  {
    if |s| == 0 then 0 else (if IsAsciiLetter(s[0]) then 1 else 0) + AsciiLetterCount(s[1..])
  }

  lemma {:induction false} ArabicMetricCountIsFilter(s: string)
    ensures ArabicMetricCount(s) == |Filter(s, IsArabicMetricChar)|
  {
    if |s| > 0 {
      ArabicMetricCountIsFilter(s[1..]);
    }
  }

  lemma {:induction false} AsciiLetterCountIsFilter(s: string)
    ensures AsciiLetterCount(s) == |Filter(s, IsAsciiLetter)|
  {
    if |s| > 0 {
      AsciiLetterCountIsFilter(s[1..]);
    }
  }

  function NewlineCount(s: string): (n: nat)
    ensures n <= |s|
  {
    if |s| == 0 then 0 else (if s[0] == '\n' then 1 else 0) + NewlineCount(s[1..])
  }

  lemma {:induction false} SplitOnNewlineCount(s: string)
    ensures |SplitOn(s, '\n')| == NewlineCount(s) + 1
  {
    if |s| > 0 {
      SplitOnNewlineCount(s[1..]);
    }
  }

  /** `get_text_metrics`. */
  function GetTextMetrics(text: string): (r: TextMetrics)
    ensures r.isRtl <==> r.direction == "rtl"
    ensures r.direction == Direction(text)
    ensures r.totalChars == |text| && r.wordCount == CountWords(text)
    ensures r.arabicChars == |Filter(text, IsArabicMetricChar)|
    ensures r.englishChars == |Filter(text, IsAsciiLetter)|
    ensures r.arabicChars + r.englishChars <= r.totalChars
    ensures |text| > 0 ==> r.lineCount == NewlineCount(text) + 1
    ensures |text| == 0 ==> r.lineCount == 0 && r.wordCount == 0
  {
    if |text| == 0 then TextMetrics(0, 0, 0, 0, 0, "ltr", false)
    else
      var d := Direction(text);
      SplitOnNewlineCount(text);
      ArabicEnglishDisjoint(text);
      ArabicMetricCountIsFilter(text);
      AsciiLetterCountIsFilter(text);
      TextMetrics(|text|, ArabicMetricCount(text), AsciiLetterCount(text), CountWords(text),
                  |SplitOn(text, '\n')|, d, d == "rtl")
  }

  lemma {:induction false} ArabicEnglishDisjoint(s: string)
    ensures ArabicMetricCount(s) + AsciiLetterCount(s) <= |s|
  {
    if |s| > 0 {
      ArabicEnglishDisjoint(s[1..]);
    }
  }
}
