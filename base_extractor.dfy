/**
 * What every extractor shares: validation of the input path, the extension test,
 * the base metadata, and the parsing of a comma-separated keyword property.
 */
module BaseExtractor {
  import opened Wrappers
  import opened Strings
  import opened Paths
  import opened Errors
  import opened DocumentModel
  import opened Seqs

  /**
   * `_validate_file`: a missing file is reported before anything else; an empty list of
   * supported extensions accepts every extension.
   */
  function ValidateFile(path: string, fileExists: bool, supported: seq<string>): (r: Result<(), Error>)
    ensures !fileExists ==> r == Failure(FileNotFound(path))
    ensures fileExists && |supported| == 0 ==> r.Success?
    ensures fileExists && |supported| > 0 ==>
      (r.Success? <==> LowerSuffix(path) in supported)
    ensures r.Failure? && fileExists ==> r.error == UnsupportedExtension(LowerSuffix(path), supported)
  {
    if !fileExists then Failure(FileNotFound(path))
    else if |supported| > 0 && LowerSuffix(path) !in supported then
      Failure(UnsupportedExtension(LowerSuffix(path), supported))
    else Success(())
  }

  /** `can_handle`: the lower-cased suffix is one of the supported extensions. */
  predicate CanHandle(path: string, supported: seq<string>) {
    LowerSuffix(path) in supported
  }

  /** A path the extractor can handle passes validation whenever the file exists. */
  lemma CanHandleValidates(path: string, supported: seq<string>)
    requires CanHandle(path, supported)
    ensures ValidateFile(path, true, supported) == Success(())
  {
  }

  /** `str.lstrip(c)`: drops every leading `c`. */
  function LStripChar(s: string, c: char): (r: string)
    ensures |r| <= |s| && r == s[|s| - |r|..]
    ensures |r| > 0 ==> r[0] != c
    ensures forall i :: 0 <= i < |s| - |r| ==> s[i] == c
  {
    if |s| > 0 && s[0] == c then LStripChar(s[1..], c) else s
  }

  lemma LowerSuffixShape(path: string)
    ensures LowerSuffix(path) == "" <==> Suffix(path) == ""
    ensures var l := LowerSuffix(path); l == "" || (l[0] == '.' && forall i :: 1 <= i < |l| ==> l[i] != '.')
  {
    var s := Suffix(path);
    var l := Lower(s);
    assert |l| == |s|;
    if |s| > 0 {
      assert s[0] == '.' && l[0] == LowerChar(s[0]);
      forall i | 1 <= i < |l| ensures l[i] != '.' {
        assert s[i] == s[1..][i - 1];
        assert s[i] != '.';
        assert l[i] == LowerChar(s[i]);
      }
    }
  }

  /** The base `source_format`: the lower-cased suffix without its dot. */
  function SourceFormat(path: string): (r: string)
    ensures Suffix(path) == "" ==> r == ""
    ensures Suffix(path) != "" ==> "." + r == LowerSuffix(path)
  {
    var l := LowerSuffix(path);
    LowerSuffixShape(path);
    if l == "" then LStripChar(l, '.')
    else
      assert |l| > 1 ==> l[1] != '.';
      DotStripped(l);
      LStripChar(l, '.')
  }

  /** A leading dot not followed by a second one: stripping dots removes exactly that one. */
  lemma DotStripped(l: string)
    requires |l| > 0 && l[0] == '.' && (|l| == 1 || l[1] != '.')
    ensures "." + LStripChar(l, '.') == l
  {
    var t := l[1..];
    assert |t| > 0 ==> t[0] == l[1];
    assert LStripChar(t, '.') == t;
    assert "." + t == l;
  }

  /** The core properties of an Office Open XML package, as the Word and PowerPoint readers report them. */
  datatype CoreProps = CoreProps(title: Option<string>, author: Option<string>, subject: Option<string>,
                                 keywords: Option<string>, created: Option<DateTime>, modified: Option<DateTime>)

  /** `_create_base_metadata`: file name, source format and modification time. */
  function CreateBaseMetadata(path: string, modified: DateTime): (m: Metadata)
    ensures m.sourceFilename == Some(Name(path)) && m.sourceFormat == Some(SourceFormat(path))
    ensures m.modifiedDate == Some(modified)
    ensures m.title.None? && m.keywords == [] && m.pageCount.None?
  {
    EmptyMetadata.(sourceFilename := Some(Name(path)), sourceFormat := Some(SourceFormat(path)),
                   modifiedDate := Some(modified))
  }

  function StripAll(parts: seq<string>): (r: seq<string>)
    ensures |r| == |parts|
    ensures forall k :: 0 <= k < |r| ==> r[k] == Strip(parts[k])
  {
    if |parts| == 0 then [] else [Strip(parts[0])] + StripAll(parts[1..])
  }

  function NonEmpty(parts: seq<string>): (r: seq<string>)
    ensures forall k :: 0 <= k < |r| ==> |r[k]| > 0 && r[k] in parts
    ensures forall x :: x in parts && |x| > 0 ==> x in r
  {
    if |parts| == 0 then [] else (if |parts[0]| > 0 then [parts[0]] else []) + NonEmpty(parts[1..])
  }

  /**
   * `_parse_keywords` (the same in the PDF, DOCX, PPTX and XLSX extractors): the
   * comma-separated pieces, stripped, empty ones dropped.
   */
  function ParseKeywords(keywords: Option<string>): (r: seq<string>)
    ensures keywords.None? || keywords == Some("") ==> r == []
    ensures forall k :: 0 <= k < |r| ==> |r[k]| > 0 && ',' !in r[k] && Strip(r[k]) == r[k]
  {
    if keywords.None? || keywords.value == "" then []
    else
      var pieces := SplitOn(keywords.value, ',');
      var stripped := StripAll(pieces);
      forall k | 0 <= k < |stripped|
        ensures ',' !in stripped[k] && Strip(stripped[k]) == stripped[k]
      {
        StrippedPiece(pieces[k], ',');
      }
      NonEmpty(stripped)
  }

  /** Keywords that are non-empty, stripped and comma-free survive a round trip through one comma-joined string. */
  lemma {:induction false} ParseKeywordsOfJoin(ks: seq<string>)
    requires |ks| > 0
    requires forall k :: 0 <= k < |ks| ==> |ks[k]| > 0 && ',' !in ks[k] && Strip(ks[k]) == ks[k]
    ensures ParseKeywords(Some(Join(ks, ","))) == ks
  {
    SplitOnJoin(ks, ',');
    assert StripAll(ks) == ks;
    NonEmptyKeepsAll(ks);
  }

  /** Dropping empty pieces is the filter on non-emptiness. */
  lemma {:induction false} NonEmptyIsFilter(parts: seq<string>)
    ensures NonEmpty(parts) == Filter(parts, (k: string) => k != "")
  {
    if |parts| > 0 {
      NonEmptyIsFilter(parts[1..]);
    }
  }

  /**
   * For any comma-separated keyword string, the keywords are its pieces, each stripped,
   * with the empty ones dropped, in order (so "a, b" gives ["a", "b"] and "a,,b" gives
   * ["a", "b"]).
   */
  lemma ParseKeywordsSpec(ps: seq<string>)
    requires |ps| >= 1 && Join(ps, ",") != ""
    requires forall k :: 0 <= k < |ps| ==> ',' !in ps[k]
    ensures ParseKeywords(Some(Join(ps, ","))) == Filter(Map(ps, Strip), (k: string) => k != "")
  {
    SplitOnJoin(ps, ',');
    assert StripAll(ps) == Map(ps, Strip);
    NonEmptyIsFilter(StripAll(ps));
  }

  lemma {:induction false} NonEmptyKeepsAll(parts: seq<string>)
    requires forall k :: 0 <= k < |parts| ==> |parts[k]| > 0
    ensures NonEmpty(parts) == parts
  {
    if |parts| > 0 {
      NonEmptyKeepsAll(parts[1..]);
      assert [parts[0]] + parts[1..] == parts;
    }
  }
}
