/**
 * The Markdown extractor: an optional `---` frontmatter block supplies metadata and is
 * removed, then a line loop turns ATX headings, images, link lines, list runs, pipe
 * tables and paragraphs into blocks of a single page.
 *
 * Every regular expression of the extractor is written out as a predicate or a search
 * function over the line; the model is applied to the lines of `content.split('\n')`,
 * which never contain a newline.
 */
module MarkdownExtractor {
  import opened Wrappers
  import opened Strings
  import opened Seqs
  import opened Paths
  import opened DocumentModel
  import opened TextUtils
  import TextExtractor

  const SupportedExtensions: seq<string> := [".md", ".markdown"]

  /** The first index at or after `from` holding `c`, or `|s|`. */
  function FindChar(s: string, c: char, from: nat): (k: nat)
    requires from <= |s|
    ensures from <= k <= |s|
    ensures k < |s| ==> s[k] == c
    ensures forall j :: from <= j < k ==> s[j] != c
    decreases |s| - from
  {
    if from == |s| || s[from] == c then from else FindChar(s, c, from + 1)
  }

  /** The text skipped by the search holds no `c`. */
  lemma FindCharSkips(s: string, c: char, from: nat)
    requires from <= |s|
    ensures c !in s[from..FindChar(s, c, from)]
  {
    var k := FindChar(s, c, from);
    assert forall q :: 0 <= q < k - from ==> s[from..k][q] == s[from + q];
  }

  // ---------------------------------------------------------------- frontmatter

  /** `\n---`, then whitespace ending in a newline, spans `c.0` to `c.1`, at or after `from`. */
  predicate ClosingFence(s: string, from: nat, c: (nat, nat)) {
    from <= c.0 && c.0 + 4 < c.1 <= |s| && OccursAt(s, "\n---", c.0) && s[c.1 - 1] == '\n'
  }

  /**
   * The closing part of `^---\s*\n(.+?)\n---\s*\n`: the lazy body ends at the first `q >= from`
   * where `\n---` follows and the whitespace after it holds a newline; the greedy `\s*` then
   * ends the match just after the last such newline.
   */
  function FmClose(s: string, from: nat): (r: Option<(nat, nat)>)
    requires from <= |s|
    ensures r.Some? ==> ClosingFence(s, from, r.value)
    ensures r.Some? ==> forall j :: r.value.0 + 4 <= j < r.value.1 ==> IsSpace(s[j])
    decreases |s| - from
  {
    if from + 4 > |s| then None
    else if OccursAt(s, "\n---", from) && LastNewline(s, from + 4, SpaceRunEnd(s, from + 4)).Some? then
      Some((from, LastNewline(s, from + 4, SpaceRunEnd(s, from + 4)).value + 1))
    else FmClose(s, from + 1)
  }

  /**
   * The opening part: the greedy `\s*` after `---` backs off newline by newline (from the
   * last one below `hi`); the first newline that admits a closing part wins. The result is
   * the body start, the body end and the match end.
   */
  function FmOpen(s: string, hi: nat): (r: Option<(nat, nat, nat)>)
    requires 3 <= hi <= |s|
    ensures r.Some? ==> 4 <= r.value.0 <= hi && s[r.value.0 - 1] == '\n'
    ensures r.Some? ==> ClosingFence(s, r.value.0 + 1, (r.value.1, r.value.2))
    decreases hi
  {
    var p := LastNewline(s, 3, hi);
    if p.None? then None
    else if p.value + 2 <= |s| && FmClose(s, p.value + 2).Some? then
      Some((p.value + 1, FmClose(s, p.value + 2).value.0, FmClose(s, p.value + 2).value.1))
    else FmOpen(s, p.value)
  }

  /** A match of `^---\s*\n(.+?)\n---\s*\n` (DOTALL): body start, body end, match end. */
  function FrontMatterMatch(content: string): (r: Option<(nat, nat, nat)>)
    ensures r.Some? ==> ClosingFence(content, r.value.0 + 1, (r.value.1, r.value.2))
    ensures r.Some? ==> StartsWith(content, "---") && 4 <= r.value.0 && content[r.value.0 - 1] == '\n'
    ensures r.Some? ==> forall j :: 3 <= j < r.value.0 - 1 ==> IsSpace(content[j])
  {
    if StartsWith(content, "---") then FmOpen(content, SpaceRunEnd(content, 3)) else None
  }

  /** The content with a leading frontmatter block removed (`re.sub` with `^` anchors once). */
  function StripFrontMatter(content: string): (r: string)
    ensures FrontMatterMatch(content).None? ==> r == content
    ensures FrontMatterMatch(content).Some? ==> r == content[FrontMatterMatch(content).value.2..]
  {
    match FrontMatterMatch(content)
    case None => content
    case Some(m) => content[m.2..]
  }

  /** Text that does not open with `---` keeps all its lines. */
  lemma NoFenceKeepsContent(content: string)
    requires !StartsWith(content, "---")
    ensures StripFrontMatter(content) == content
  {
  }

  function ColonAt(line: string): nat {
    FindChar(line, ':', 0)
  }

  /** `':' in line`, found by the same search that splits the line. */
  predicate HasColon(line: string) {
    ColonAt(line) < |line|
  }

  lemma HasColonIff(line: string)
    ensures HasColon(line) <==> ':' in line
  {
    if ':' in line {
      var j :| 0 <= j < |line| && line[j] == ':';
      assert ColonAt(line) <= j;
    }
  }

  /** `key.strip().lower()` of `line.split(':', 1)`. */
  function KeyOf(line: string): string {
    Lower(Strip(line[..ColonAt(line)]))
  }

  function ValueOf(line: string): string
    requires HasColon(line)
  {
    Strip(line[ColonAt(line) + 1..])
  }

  /** The (key, value) pair of each line holding a colon, in line order. */
  function Entries(lines: seq<string>): seq<(string, string)>
    decreases |lines|
  {
    if |lines| == 0 then []
    else
      var l := lines[|lines| - 1];
      Entries(lines[..|lines| - 1]) + (if HasColon(l) then [(KeyOf(l), ValueOf(l))] else [])
  }

  /** Assigning the pairs into an empty dict in order: a later pair overwrites an earlier one. */
  function ToMap<K, V>(ps: seq<(K, V)>): map<K, V>
    decreases |ps|
  {
    if |ps| == 0 then map[] else ToMap(ps[..|ps| - 1])[ps[|ps| - 1].0 := ps[|ps| - 1].1]
  }

  /** The index of the last pair with key `k` below `hi`, or `hi` when there is none. */
  function LastWithKey<K(==), V>(ps: seq<(K, V)>, k: K, hi: nat): (j: nat)
    requires hi <= |ps|
    ensures j <= hi
    ensures j < hi ==> ps[j].0 == k && forall j' :: j < j' < hi ==> ps[j'].0 != k
    ensures j == hi ==> forall j' :: 0 <= j' < hi ==> ps[j'].0 != k
    decreases hi
  {
    if hi == 0 then 0
    else if ps[hi - 1].0 == k then hi - 1
    else
      var j := LastWithKey(ps, k, hi - 1);
      if j == hi - 1 then hi else j
  }

  /**
   * A key is in the dict exactly when some pair has it, and it maps to the value of the
   * last such pair.
   */
  lemma {:induction false} ToMapLookup<K, V>(ps: seq<(K, V)>, k: K)
    ensures k in ToMap(ps) <==> LastWithKey(ps, k, |ps|) < |ps|
    ensures k in ToMap(ps) ==> ToMap(ps)[k] == ps[LastWithKey(ps, k, |ps|)].1
    decreases |ps|
  {
    if |ps| > 0 {
      var init := ps[..|ps| - 1];
      ToMapLookup(init, k);
      LastWithKeyInit(ps, k, |ps| - 1);
    }
  }

  lemma {:induction false} LastWithKeyInit<K, V>(ps: seq<(K, V)>, k: K, hi: nat)
    requires hi <= |ps| - 1
    ensures LastWithKey(ps, k, hi) == LastWithKey(ps[..|ps| - 1], k, hi)
    decreases hi
  {
    if hi > 0 {
      assert ps[hi - 1] == ps[..|ps| - 1][hi - 1];
      LastWithKeyInit(ps, k, hi - 1);
    }
  }

  /** The frontmatter dictionary of the body's lines. */
  function FrontMatter(lines: seq<string>): map<string, string> {
    ToMap(Entries(lines))
  }

  lemma EntriesSnoc(lines: seq<string>, i: nat)
    requires i < |lines|
    ensures Entries(lines[..i + 1]) == Entries(lines[..i]) + (if HasColon(lines[i]) then [(KeyOf(lines[i]), ValueOf(lines[i]))] else [])
  {
    assert lines[..i + 1][..i] == lines[..i];
  }

  /** The frontmatter loop of `_extract_metadata`. */
  method ParseFrontMatter(body: string) returns (fm: map<string, string>)
    ensures fm == FrontMatter(SplitOn(body, '\n'))
  {
    var lines := SplitOn(body, '\n');
    fm := map[];
    for i := 0 to |lines|
      invariant fm == ToMap(Entries(lines[..i]))
    {
      EntriesSnoc(lines, i);
      var line := lines[i];
      HasColonIff(line);
      if ':' in line {
        var es := Entries(lines[..i]) + [(KeyOf(line), ValueOf(line))];
        assert es[..|es| - 1] == Entries(lines[..i]);
        fm := fm[KeyOf(line) := ValueOf(line)];
      } else {
        assert Entries(lines[..i]) + [] == Entries(lines[..i]);
      }
    }
    assert lines[..|lines|] == lines;
  }

  /** A key is cut at the first colon, is stripped and lower-cased, and has no colon. */
  lemma KeyOfShape(line: string)
    requires ':' in line
    ensures ':' !in KeyOf(line) && Lower(KeyOf(line)) == KeyOf(line)
    ensures line[ColonAt(line)] == ':' && ':' !in line[..ColonAt(line)]
  {
    var c := ColonAt(line);
    assert c < |line|;
    var pre := line[..c];
    assert ':' !in pre;
    var k := Strip(pre);
    StrippedPiece(pre, ':');
    forall j | 0 <= j < |k|
      ensures Lower(k)[j] != ':'
    {
      assert k[j] != ':';
    }
    LowerIdempotent(k);
  }

  /** Every frontmatter pair carries a lower-cased key without a colon, cut at the line's first colon. */
  lemma {:induction false} EntriesShape(lines: seq<string>)
    ensures forall j :: 0 <= j < |Entries(lines)| ==> ':' !in Entries(lines)[j].0 && Lower(Entries(lines)[j].0) == Entries(lines)[j].0
    decreases |lines|
  {
    if |lines| > 0 {
      EntriesShape(lines[..|lines| - 1]);
      var l := lines[|lines| - 1];
      if HasColon(l) {
        HasColonIff(l);
        KeyOfShape(l);
      }
    }
  }

  // ---------------------------------------------------------------- metadata

  /**
   * The title of `^#\s+(.+)$` (MULTILINE) at the start of the content, stripped; "" when
   * there is no match or the group is only whitespace (both are falsy for the caller).
   */
  function LeadingHeadingTitle(content: string): (r: string)
    ensures r != "" ==> |content| > 1 && content[0] == '#' && IsSpace(content[1])
  {
    if |content| == 0 || content[0] != '#' then ""
    else
      var w := SpaceRunEnd(content, 1);
      if w == 1 || w == |content| then ""
      else Strip(content[w..FindChar(content, '\n', w)])
  }

  function FrontMatterOf(content: string): map<string, string> {
    match FrontMatterMatch(content)
    case None => map[]
    case Some(m) => FrontMatter(SplitOn(content[m.0..m.1], '\n'))
  }

  function Get(m: map<string, string>, k: string): Option<string> {
    if k in m then Some(m[k]) else None
  }

  /** `_extract_metadata`: frontmatter title, else the leading `# ` line, else the file name. */
  function ExtractMetadata(content: string, base: Metadata): (m: Metadata)
    ensures var fm := FrontMatterOf(content);
      && ("title" in fm && fm["title"] != "" ==> m.title == Some(fm["title"]))
      && (!("title" in fm && fm["title"] != "") && LeadingHeadingTitle(content) != ""
          ==> m.title == Some(LeadingHeadingTitle(content)))
      && (!("title" in fm && fm["title"] != "") && LeadingHeadingTitle(content) == ""
          ==> m.title == base.sourceFilename)
      && m.author == Get(fm, "author") && m.subject == Get(fm, "description")
    ensures m.sourceFormat == Some("md") && m.wordCount == Some(CountWords(content) as int)
    ensures m.sourceFilename == base.sourceFilename && m.modifiedDate == base.modifiedDate
  {
    var fm := FrontMatterOf(content);
    var heading := LeadingHeadingTitle(content);
    var title := if "title" in fm && fm["title"] != "" then Some(fm["title"])
                 else if heading != "" then Some(heading)
                 else base.sourceFilename;
    EmptyMetadata.(title := title, author := Get(fm, "author"), subject := Get(fm, "description"),
                   wordCount := Some(CountWords(content) as int), sourceFormat := Some("md"),
                   sourceFilename := base.sourceFilename, modifiedDate := base.modifiedDate)
  }

  // ---------------------------------------------------------------- line patterns

  /** The number of leading '#' characters. */
  function HashRun(line: string): (n: nat)
    ensures n <= |line|
    ensures forall j :: 0 <= j < n ==> line[j] == '#'
    ensures n < |line| ==> line[n] != '#'
  {
    FindNot(line, '#', 0)
  }

  function FindNot(s: string, c: char, from: nat): (k: nat)
    requires from <= |s|
    ensures from <= k <= |s|
    ensures forall j :: from <= j < k ==> s[j] == c
    ensures k < |s| ==> s[k] != c
    decreases |s| - from
  {
    if from == |s| || s[from] != c then from else FindNot(s, c, from + 1)
  }

  /** `^(#{1,6})\s+(.+)$`. */
  predicate HeadingMatch(line: string) {
    var h := HashRun(line);
    1 <= h <= 6 && h + 2 <= |line| && IsSpace(line[h])
  }

  /** Group 2: after the greedy whitespace, which gives back one character when it reaches the end. */
  function HeadingGroup(line: string): string
    requires HeadingMatch(line)
  {
    var k := SpaceRunEnd(line, HashRun(line));
    if k == |line| then line[|line| - 1..] else line[k..]
  }

  /** Seven or more leading '#' characters never make a heading. */
  lemma SevenHashesNoHeading(line: string)
    requires |line| >= 7 && forall j :: 0 <= j < 7 ==> line[j] == '#'
    ensures !HeadingMatch(line)
  {
    assert HashRun(line) >= 7;
  }

  /** The slice from an opening '[' to a closing ')' reads `[text](url)`. */
  lemma Bracketed(s: string, p: nat, j: nat, m: nat)
    requires p < j && j + 2 <= m < |s|
    requires s[p] == '[' && s[j] == ']' && s[j + 1] == '(' && s[m] == ')'
    ensures s[p..m + 1] == "[" + s[p + 1..j] + "](" + s[j + 2..m] + ")"
  {
    var r := "[" + s[p + 1..j] + "](" + s[j + 2..m] + ")";
    assert |r| == m + 1 - p;
    forall x | 0 <= x < |r| ensures r[x] == s[p + x] {
      if x == 0 {
      } else if x < j - p {
        assert r[x] == s[p + 1..j][x - 1];
      } else if x == j - p {
      } else if x == j - p + 1 {
      } else if x < m - p {
        assert r[x] == s[j + 2..m][x - (j - p) - 2];
      }
    }
  }

  /** `![alt](url)` at the start of the line: alt up to the first ']', url up to the first ')'. */
  function ImageMatch(line: string): (r: Option<(string, string)>)
    ensures r.Some? ==> ']' !in r.value.0 && ')' !in r.value.1 && |r.value.1| > 0
    ensures r.Some? ==> |line| > 0 && line[0] == '!' && StartsWith(line[1..], "[" + r.value.0 + "](" + r.value.1 + ")")
  {
    if !StartsWith(line, "![") then None
    else
      var j := FindChar(line, ']', 2);
      if j + 1 >= |line| || line[j + 1] != '(' then None
      else
        var m := FindChar(line, ')', j + 2);
        if m == |line| || m == j + 2 then None
        else
          Bracketed(line, 1, j, m);
          assert line[1..][..m] == line[1..m + 1];
          Some((line[2..j], line[j + 2..m]))
  }

  /** `^\[([^\]]+)\]\(([^)]+)\)$` on the stripped line. */
  function LinkLineMatch(line: string): (r: Option<(string, string)>)
    ensures r.Some? ==> Strip(line) == "[" + r.value.0 + "](" + r.value.1 + ")"
    ensures r.Some? ==> |r.value.0| > 0 && |r.value.1| > 0 && ']' !in r.value.0 && ')' !in r.value.1
  {
    WholeLink(Strip(line))
  }

  /** The same pattern on a text that must be nothing but the link. */
  function WholeLink(s: string): (r: Option<(string, string)>)
    ensures r.Some? ==> s == "[" + r.value.0 + "](" + r.value.1 + ")"
    ensures r.Some? ==> |r.value.0| > 0 && |r.value.1| > 0 && ']' !in r.value.0 && ')' !in r.value.1
  {
    if |s| == 0 || s[0] != '[' then None
    else
      var j := FindChar(s, ']', 1);
      if j == 1 || j + 1 >= |s| || s[j + 1] != '(' then None
      else
        var m := FindChar(s, ')', j + 2);
        if m == j + 2 || m != |s| - 1 then None
        else
          Bracketed(s, 0, j, m);
          assert s[0..m + 1] == s;
          FindCharSkips(s, ']', 1);
          FindCharSkips(s, ')', j + 2);
          Some((s[1..j], s[j + 2..m]))
  }

  /** `^\s*[-*+]\s+`. */
  predicate BulletLine(line: string) {
    var t := LStrip(line);
    |t| >= 2 && (t[0] == '-' || t[0] == '*' || t[0] == '+') && IsSpace(t[1])
  }

  predicate IsListLine(line: string) {
    BulletLine(line) || TextExtractor.NumericMarker(line)
  }

  /** `^[\s|:-]+$`. */
  predicate RuleChars(line: string) {
    |line| > 0 && forall j :: 0 <= j < |line| ==> IsSpace(line[j]) || line[j] == '|' || line[j] == ':' || line[j] == '-'
  }

  predicate IsTableLine(line: string) {
    StartsWith(line, "|") || RuleChars(line)
  }

  /** A line that extends the current paragraph. */
  predicate ContinuesParagraph(line: string) {
    Strip(line) != "" && !StartsWith(line, "#") && !IsListLine(line) && !StartsWith(line, "|")
  }

  /** The end of the maximal run of lines satisfying `p` from `i`. */
  function RunEnd(lines: seq<string>, i: nat, p: string -> bool): (e: nat)
    requires i <= |lines|
    ensures i <= e <= |lines|
    ensures forall k :: i <= k < e ==> p(lines[k])
    ensures e < |lines| ==> !p(lines[e])
    decreases |lines| - i
  {
    if i == |lines| || !p(lines[i]) then i else RunEnd(lines, i + 1, p)
  }

  /** A line satisfying `p` extends the run by one. */
  lemma RunEndStep(lines: seq<string>, e: nat, p: string -> bool)
    requires e < |lines| && p(lines[e])
    ensures RunEnd(lines, e, p) == RunEnd(lines, e + 1, p)
  {
  }

  /** The run ends at the end of the lines or at a line failing `p`. */
  lemma RunEndStop(lines: seq<string>, e: nat, p: string -> bool)
    requires e <= |lines| && (e == |lines| || !p(lines[e]))
    ensures RunEnd(lines, e, p) == e
  {
  }

  // ---------------------------------------------------------------- lists

  /** The characters of `[-*+\d.)\s]`. */
  predicate IsItemMarkerChar(c: char) {
    c == '-' || c == '*' || c == '+' || IsAsciiDigit(c) || c == '.' || c == ')' || IsSpace(c)
  }

  function MarkerEnd(line: string, from: nat): (k: nat)
    requires from <= |line|
    ensures from <= k <= |line|
    ensures k < |line| ==> !IsItemMarkerChar(line[k])
    decreases |line| - from
  {
    if from < |line| && IsItemMarkerChar(line[from]) then MarkerEnd(line, from + 1) else from
  }

  /** The line after `re.sub(r'^\s*[-*+\d.)\s]+', '', line)`. */
  function RawItem(line: string): string {
    line[MarkerEnd(line, 0)..]
  }

  /** The cleaned items of the lines whose text after the marker is not blank. */
  function ListItemsOf(ls: seq<string>): (r: seq<string>)
    ensures |r| <= |ls|
    decreases |ls|
  {
    if |ls| == 0 then []
    else ListItemsOf(ls[..|ls| - 1]) + ItemOf(ls[|ls| - 1])
  }

  /** A list block, unless every item is blank; ordered when its first line is numbered. */
  function ListOf(ls: seq<string>): (r: Option<Block>)
    requires |ls| > 0
    ensures r.Some? <==> ListItemsOf(ls) != []
    ensures r.Some? ==> (r.value.ListBlock? && r.value.items == ListItemsOf(ls)
      && r.value.isOrdered == TextExtractor.NumericMarker(ls[0]))
  {
    var items := ListItemsOf(ls);
    if items == [] then None
    else Some(ListBlock(TextExtractor.DirectionOf(Join(items, " ")), None, items,
                        TextExtractor.NumericMarker(ls[0]), []))
  }

  /** The item, if any, that one list line contributes. */
  function ItemOf(line: string): seq<string> {
    var raw := RawItem(line);
    if Strip(raw) != "" then [CleanTextSpec(raw, true)] else []
  }

  lemma ListItemsSnoc(lines: seq<string>, i: nat, e: nat)
    requires i <= e < |lines|
    ensures ListItemsOf(lines[i..e + 1]) == ListItemsOf(lines[i..e]) + ItemOf(lines[e])
  {
    var p := lines[i..e + 1];
    assert p[..|p| - 1] == lines[i..e] && p[|p| - 1] == lines[e];
  }

  lemma {:induction false} BlankItemsNoList(ls: seq<string>)
    requires forall k :: 0 <= k < |ls| ==> Strip(RawItem(ls[k])) == ""
    ensures ListItemsOf(ls) == []
    decreases |ls|
  {
    if |ls| > 0 {
      BlankItemsNoList(ls[..|ls| - 1]);
    }
  }

  /** The inner list loop: consumes the run of list lines from `i`, collecting items. */
  method CollectList(lines: seq<string>, i: nat) returns (items: seq<string>, e: nat)
    requires i < |lines|
    ensures e == RunEnd(lines, i, IsListLine)
    ensures items == ListItemsOf(lines[i..e])
  {
    items := [];
    e := i;
    while e < |lines| && IsListLine(lines[e])
      invariant i <= e <= |lines|
      invariant RunEnd(lines, e, IsListLine) == RunEnd(lines, i, IsListLine)
      invariant items == ListItemsOf(lines[i..e])
      decreases |lines| - e
    {
      RunEndStep(lines, e, IsListLine);
      items := CollectItem(items, lines, i, e);
      e := e + 1;
    }
    RunEndStop(lines, e, IsListLine);
  }

  /** The body of the list loop: the line's text after its marker, cleaned, appended unless it is blank. */
  method CollectItem(items: seq<string>, lines: seq<string>, i: nat, e: nat) returns (items': seq<string>)
    requires i <= e < |lines| && items == ListItemsOf(lines[i..e])
    ensures items' == ListItemsOf(lines[i..e + 1])
  {
    ListItemsSnoc(lines, i, e);
    var item := RawItem(lines[e]);
    if Strip(item) != "" {
      items' := items + [CleanTextSpec(item, true)];
    } else {
      items' := items;
      assert items' == items + [];
    }
  }

  // ---------------------------------------------------------------- tables

  /** `line.strip('|')`. */
  function StripBars(line: string): (r: string)
    ensures |r| <= |line|
    ensures |r| > 0 ==> r[0] != '|' && r[|r| - 1] != '|'
  {
    var k := FindNot(line, '|', 0);
    var rest := line[k..];
    var e := BackNot(rest, '|', |rest|);
    rest[..e]
  }

  function BackNot(s: string, c: char, hi: nat): (k: nat)
    requires hi <= |s|
    ensures k <= hi
    ensures forall j :: k <= j < hi ==> s[j] == c
    ensures k > 0 ==> s[k - 1] != c
    decreases hi
  {
    if hi == 0 || s[hi - 1] != c then hi else BackNot(s, c, hi - 1)
  }

  /** A separator line: only `[\s|:-]` and at least one '-'. */
  predicate SkippedLine(line: string) {
    RuleChars(line) && '-' in line
  }

  function CellOf(text: string, isHeader: bool): TableCell {
    TableCell(CleanTextSpec(text, true), isHeader, 1, 1, [])
  }

  function CellMaker(isHeader: bool): string -> TableCell {
    (c: string) => CellOf(c, isHeader)
  }

  /** The row of the table line with index `idx`: header iff `idx == 0`. */
  function RowOf(line: string, idx: nat): (r: TableRow)
    ensures r.isHeaderRow <==> idx == 0
    ensures RowShape(r)
  {
    TableRow(Map(SplitOn(StripBars(line), '|'), CellMaker(idx == 0)), idx == 0)
  }

  /** At least one cell, every cell flagged like its row and spanning one row and column. */
  predicate RowShape(r: TableRow) {
    |r.cells| > 0 && forall j :: 0 <= j < |r.cells| ==> r.cells[j].isHeader == r.isHeaderRow && ValidCell(r.cells[j])
  }

  /** The rows of the lines that are not separators, each flagged by its line index. */
  function KeptRows(tl: seq<string>): seq<TableRow>
    decreases |tl|
  {
    if |tl| == 0 then []
    else KeptRows(tl[..|tl| - 1]) + (if SkippedLine(tl[|tl| - 1]) then [] else [RowOf(tl[|tl| - 1], |tl| - 1)])
  }

  function ParseTableSpec(tl: seq<string>): Option<Block> {
    var rows := KeptRows(tl);
    if rows == [] then None
    else Some(TableBlock(AUTO, None, rows, None, true, |rows[0].cells|, |rows|))
  }

  /** The cell loop of `_parse_table`, with the cell constructor as a parameter. */
  method BuildCells(texts: seq<string>, cell: string -> TableCell) returns (cells: seq<TableCell>)
    ensures cells == Map(texts, cell)
  {
    cells := [];
    for k := 0 to |texts|
      invariant cells == Map(texts[..k], cell)
    {
      MapSnoc([], texts, k, cell);
      cells := cells + [cell(texts[k])];
    }
    assert texts[..|texts|] == texts;
  }

  method BuildRow(line: string, idx: nat) returns (row: TableRow)
    ensures row == RowOf(line, idx)
  {
    var cells := BuildCells(SplitOn(StripBars(line), '|'), CellMaker(idx == 0));
    row := TableRow(cells, idx == 0);
  }

  /** `_parse_table`. */
  method ParseTable(tl: seq<string>) returns (r: Option<Block>)
    ensures r == ParseTableSpec(tl)
  {
    var rows: seq<TableRow> := [];
    for idx := 0 to |tl|
      invariant rows == KeptRows(tl[..idx])
    {
      assert tl[..idx + 1][..idx] == tl[..idx];
      if RuleChars(tl[idx]) && '-' in tl[idx] {
        continue;
      }
      var row := BuildRow(tl[idx], idx);
      rows := rows + [row];
    }
    assert tl[..|tl|] == tl;
    if rows == [] {
      return None;
    }
    return Some(TableBlock(AUTO, None, rows, None, true, |rows[0].cells|, |rows|));
  }

  /** Every kept row has at least one cell, each flagged like its row. */
  lemma {:induction false} KeptRowsCells(tl: seq<string>)
    ensures forall k :: 0 <= k < |KeptRows(tl)| ==> RowShape(KeptRows(tl)[k])
    decreases |tl|
  {
    if |tl| > 0 {
      KeptRowsCells(tl[..|tl| - 1]);
    }
  }

  /** No row is kept exactly when every line is a separator. */
  lemma {:induction false} KeptRowsEmpty(tl: seq<string>)
    ensures KeptRows(tl) == [] <==> forall j :: 0 <= j < |tl| ==> SkippedLine(tl[j])
    decreases |tl|
  {
    if |tl| > 0 {
      var init := tl[..|tl| - 1];
      KeptRowsEmpty(init);
      assert forall j :: 0 <= j < |init| ==> init[j] == tl[j];
    }
  }

  /**
   * Only the first kept row can be a header row, and it is one exactly when source
   * line 0 is not a separator.
   */
  lemma {:induction false} KeptRowsHeader(tl: seq<string>)
    ensures forall k :: 0 < k < |KeptRows(tl)| ==> !KeptRows(tl)[k].isHeaderRow
    ensures (|KeptRows(tl)| > 0 && KeptRows(tl)[0].isHeaderRow) <==> (|tl| > 0 && !SkippedLine(tl[0]))
    decreases |tl|
  {
    if |tl| > 1 {
      var init := tl[..|tl| - 1];
      KeptRowsHeader(init);
      KeptRowsEmpty(init);
      assert init[0] == tl[0];
    }
  }

  /**
   * A parsed table flags row 0 as header exactly when source line 0 was kept, counts its
   * rows, takes its column count from the first kept row, and is None when no row is kept.
   */
  lemma ParseTableShape(tl: seq<string>)
    ensures ParseTableSpec(tl).None? <==> forall j :: 0 <= j < |tl| ==> SkippedLine(tl[j])
    ensures ParseTableSpec(tl).Some? ==>
      var b := ParseTableSpec(tl).value;
      && b.TableBlock? && b.hasHeader && b.rowCount == |b.rows| && b.columnCount == |b.rows[0].cells| > 0
      && (b.rows[0].isHeaderRow <==> !SkippedLine(tl[0]))
      && (forall k :: 0 < k < |b.rows| ==> !b.rows[k].isHeaderRow)
      && ValidBlock(b)
  {
    KeptRowsCells(tl);
    KeptRowsEmpty(tl);
    KeptRowsHeader(tl);
  }

  /** The inner table loop: consumes the run of table lines from `i`. */
  method CollectTable(lines: seq<string>, i: nat) returns (tl: seq<string>, e: nat)
    requires i < |lines|
    ensures e == RunEnd(lines, i, IsTableLine)
    ensures tl == lines[i..e]
  {
    tl := [];
    e := i;
    while e < |lines| && IsTableLine(lines[e])
      invariant i <= e <= |lines|
      invariant RunEnd(lines, e, IsTableLine) == RunEnd(lines, i, IsTableLine)
      invariant tl == lines[i..e]
      decreases |lines| - e
    {
      RunEndStep(lines, e, IsTableLine);
      tl := tl + [lines[e]];
      e := e + 1;
    }
    RunEndStop(lines, e, IsTableLine);
  }

  // ---------------------------------------------------------------- links in paragraphs

  /** A match of `\[([^\]]+)\]\(([^)]+)\)` at `p`: its end, the text and the url. */
  function LinkAt(text: string, p: nat): (r: Option<(nat, string, string)>)
    requires p < |text|
    ensures r.Some? ==> (p < r.value.0 <= |text|
      && text[p..r.value.0] == "[" + r.value.1 + "](" + r.value.2 + ")")
  {
    if text[p] != '[' then None
    else
      var j := FindChar(text, ']', p + 1);
      if j == p + 1 || j + 1 >= |text| || text[j + 1] != '(' then None
      else
        var m := FindChar(text, ')', j + 2);
        if m == |text| || m == j + 2 then None
        else
          Bracketed(text, p, j, m);
          Some((m + 1, text[p + 1..j], text[j + 2..m]))
  }

  /** A positioned link at or after `p` whose source slice reads `[text](url)`. */
  predicate LinkFound(text: string, p: nat, l: Link) {
    && Positioned(l)
    && p <= l.startIndex.value < l.endIndex.value <= |text|
    && text[l.startIndex.value..l.endIndex.value] == "[" + l.text + "](" + l.url + ")"
  }

  /** `finditer` from `p`: matches are taken left to right and never overlap. */
  function LinksFrom(text: string, p: nat): (r: seq<Link>)
    requires p <= |text|
    ensures forall k :: 0 <= k < |r| ==> LinkFound(text, p, r[k])
    ensures forall k, l :: 0 <= k < l < |r| ==>
      Positioned(r[k]) && Positioned(r[l]) && r[k].endIndex.value <= r[l].startIndex.value
    decreases |text| - p
  {
    if p == |text| then []
    else
      match LinkAt(text, p)
      case Some(m) =>
        var rest := LinksFrom(text, m.0);
        var r := [Link(m.1, m.2, Some(p as int), Some(m.0 as int))] + rest;
        assert forall k :: 1 <= k < |r| ==> r[k] == rest[k - 1];
        r
      case None => LinksFrom(text, p + 1)
  }

  /** `_extract_links`. */
  method ExtractLinks(text: string) returns (links: seq<Link>)
    ensures links == LinksFrom(text, 0)
  {
    links := [];
    var p := 0;
    while p < |text|
      invariant p <= |text|
      invariant links + LinksFrom(text, p) == LinksFrom(text, 0)
      decreases |text| - p
    {
      var m := LinkAt(text, p);
      if m.Some? {
        links := links + [Link(m.value.1, m.value.2, Some(p as int), Some(m.value.0 as int))];
        p := m.value.0;
      } else {
        p := p + 1;
      }
    }
  }

  // ---------------------------------------------------------------- paragraphs

  function ParagraphOf(paraText: string): Option<Block> {
    var t := CleanTextSpec(paraText, true);
    if t == "" then None
    else Some(ParagraphBlock(TextExtractor.DirectionOf(t), None, t, LinksFrom(t, 0), false, false))
  }

  /** The lines `i` to `e - 1` joined with newlines, built the way the loop builds it. */
  function ParaText(lines: seq<string>, i: nat, e: nat): string
    requires i < e <= |lines|
    decreases e
  {
    if e == i + 1 then lines[i] else ParaText(lines, i, e - 1) + "\n" + lines[e - 1]
  }

  /** The paragraph text is `"\n".join` of its lines. */
  lemma {:induction false} ParaTextJoin(lines: seq<string>, i: nat, e: nat)
    requires i < e <= |lines|
    ensures ParaText(lines, i, e) == Join(lines[i..e], "\n")
    decreases e
  {
    if e == i + 1 {
      assert lines[i..e] == [lines[i]];
    } else {
      ParaTextJoin(lines, i, e - 1);
      JoinSnoc(lines[i..e - 1], lines[e - 1], "\n");
      assert lines[i..e - 1] + [lines[e - 1]] == lines[i..e];
    }
  }

  /** The paragraph loop: the first line, then each following line that continues it. */
  method CollectParagraph(lines: seq<string>, i: nat) returns (para: string, e: nat)
    requires i < |lines|
    ensures e == RunEnd(lines, i + 1, ContinuesParagraph)
    ensures para == ParaText(lines, i, e)
  {
    para := lines[i];
    e := i + 1;
    while e < |lines| && Strip(lines[e]) != "" && !StartsWith(lines[e], "#")
      invariant i + 1 <= e <= |lines|
      invariant RunEnd(lines, e, ContinuesParagraph) == RunEnd(lines, i + 1, ContinuesParagraph)
      invariant para == ParaText(lines, i, e)
      decreases |lines| - e
    {
      if IsListLine(lines[e]) {
        break;
      }
      if StartsWith(lines[e], "|") {
        break;
      }
      RunEndStep(lines, e, ContinuesParagraph);
      para := para + "\n" + lines[e];
      e := e + 1;
    }
    RunEndStop(lines, e, ContinuesParagraph);
  }

  // ---------------------------------------------------------------- the line loop

  function HeadingOf(line: string): (r: Option<Block>)
    requires HeadingMatch(line)
    ensures r.Some? ==> r.value.HeadingBlock? && r.value.level == HashRun(line) && 1 <= r.value.level <= 6
  {
    var t := CleanTextSpec(HeadingGroup(line), true);
    if t == "" then None else Some(HeadingBlock(TextExtractor.DirectionOf(t), None, HashRun(line), t, []))
  }

  function ImageOf(alt: string, url: string, id: string): Block {
    ImageBlock(AUTO, None, id, Some(alt), Some(alt), None, Some(url), None, None, None)
  }

  /** One pass of the `while` body at line `i`: the block it adds, if any, and the next `i`. */
  function Step(lines: seq<string>, i: nat, ids: nat -> string): (r: (Option<Block>, nat))
    requires i < |lines|
    ensures i < r.1 <= |lines|
  {
    var line := lines[i];
    if HeadingMatch(line) then (HeadingOf(line), i + 1)
    else
    var image := ImageMatch(line);
    if image.Some? then (Some(ImageOf(image.value.0, image.value.1, ids(i))), i + 1)
    else
    var link := LinkLineMatch(line);
    if link.Some? then (Some(LinkBlock(AUTO, None, link.value.0, link.value.1)), i + 1)
    else RunStep(lines, i)
  }

  /** The branches of `_parse_content` that consume a run of lines: list, table, paragraph, blank. */
  function RunStep(lines: seq<string>, i: nat): (r: (Option<Block>, nat))
    requires i < |lines|
    ensures i < r.1 <= |lines|
  {
    var line := lines[i];
    if IsListLine(line) then
      RunEndStep(lines, i, IsListLine);
      var e := RunEnd(lines, i, IsListLine);
      (ListOf(lines[i..e]), e)
    else if StartsWith(line, "|") then
      assert IsTableLine(line);
      RunEndStep(lines, i, IsTableLine);
      var e := RunEnd(lines, i, IsTableLine);
      (ParseTableSpec(lines[i..e]), e)
    else if Strip(line) != "" then
      var e := RunEnd(lines, i + 1, ContinuesParagraph);
      (ParagraphOf(ParaText(lines, i, e)), e)
    else (None, i + 1)
  }

  function ParseFrom(lines: seq<string>, i: nat, ids: nat -> string): seq<Block>
    requires i <= |lines|
    decreases |lines| - i
  {
    if i == |lines| then []
    else
      var s := Step(lines, i, ids);
      TextExtractor.OptionSeq(s.0) + ParseFrom(lines, s.1, ids)
  }

  /** The blocks of the content once its frontmatter is removed. */
  function ParseContentSpec(content: string, ids: nat -> string): seq<Block> {
    ParseFrom(SplitOn(StripFrontMatter(content), '\n'), 0, ids)
  }

  /** The body of the `while` loop of `_parse_content`. */
  method StepAt(lines: seq<string>, i: nat, ids: nat -> string) returns (b: Option<Block>, next: nat)
    requires i < |lines|
    ensures (b, next) == Step(lines, i, ids)
  {
    var line := lines[i];
    if HeadingMatch(line) {
      var text := CleanTextSpec(HeadingGroup(line), true);
      if text != "" {
        b := Some(HeadingBlock(TextExtractor.DirectionOf(text), None, HashRun(line), text, []));
      } else {
        b := None;
      }
      return b, i + 1;
    }
    var image := ImageMatch(line);
    if image.Some? {
      return Some(ImageOf(image.value.0, image.value.1, ids(i))), i + 1;
    }
    var link := LinkLineMatch(line);
    if link.Some? {
      return Some(LinkBlock(AUTO, None, link.value.0, link.value.1)), i + 1;
    }
    if IsListLine(line) {
      var items, e := CollectList(lines, i);
      if items != [] {
        b := Some(ListBlock(TextExtractor.DirectionOf(Join(items, " ")), None, items,
                            TextExtractor.NumericMarker(line), []));
      } else {
        b := None;
      }
      return b, e;
    }
    if StartsWith(line, "|") {
      var tl, e := CollectTable(lines, i);
      b := ParseTable(tl);
      return b, e;
    }
    if Strip(line) != "" {
      var para, e := CollectParagraph(lines, i);
      var text := CleanTextSpec(para, true);
      if text != "" {
        var links := ExtractLinks(text);
        b := Some(ParagraphBlock(TextExtractor.DirectionOf(text), None, text, links, false, false));
      } else {
        b := None;
      }
      return b, e;
    }
    return None, i + 1;
  }

  lemma ParseFromStep(lines: seq<string>, i: nat, ids: nat -> string)
    requires i < |lines|
    ensures ParseFrom(lines, i, ids) == TextExtractor.OptionSeq(Step(lines, i, ids).0) + ParseFrom(lines, Step(lines, i, ids).1, ids)
  {
  }

  /** The `while` loop of `_parse_content` over the lines. */
  method ParseLines(lines: seq<string>, ids: nat -> string) returns (blocks: seq<Block>)
    ensures blocks == ParseFrom(lines, 0, ids)
  {
    blocks := [];
    var i := 0;
    while i < |lines|
      invariant i <= |lines|
      invariant blocks + ParseFrom(lines, i, ids) == ParseFrom(lines, 0, ids)
      decreases |lines| - i
    {
      blocks, i := Advance(blocks, lines, i, ids);
    }
    assert ParseFrom(lines, i, ids) == [];
    assert blocks + [] == blocks;
  }

  /** One turn of the line loop: the blocks so far extended by the step at `i`, and where the next one starts. */
  method Advance(blocks: seq<Block>, lines: seq<string>, i: nat, ids: nat -> string) returns (blocks': seq<Block>, next: nat)
    requires i < |lines|
    ensures i < next <= |lines|
    ensures blocks' + ParseFrom(lines, next, ids) == blocks + ParseFrom(lines, i, ids)
  {
    ParseFromStep(lines, i, ids);
    var b;
    b, next := StepAt(lines, i, ids);
    var produced := TextExtractor.OptionSeq(b);
    blocks' := blocks + produced;
    AppendAssoc(blocks, produced, ParseFrom(lines, next, ids));
  }

  /** `_parse_content`: frontmatter removed, then the line loop. */
  method ParseContent(content: string, ids: nat -> string) returns (blocks: seq<Block>)
    ensures blocks == ParseContentSpec(content, ids)
  {
    blocks := ParseLines(SplitOn(StripFrontMatter(content), '\n'), ids);
  }

  // ---------------------------------------------------------------- block-level properties

  /**
   * A heading line yields a heading whose level is its number of leading '#' characters
   * (1 to 6), or nothing when its text cleans to "", and the loop moves to the next line.
   */
  lemma HeadingStep(lines: seq<string>, i: nat, ids: nat -> string)
    requires i < |lines| && HeadingMatch(lines[i])
    ensures Step(lines, i, ids).1 == i + 1
    ensures Step(lines, i, ids).0.Some? ==> (Step(lines, i, ids).0.value.HeadingBlock?
      && Step(lines, i, ids).0.value.level == HashRun(lines[i]))
  {
  }

  /**
   * A list line that is not a heading, image or link line starts a list block that
   * consumes the maximal run of list lines; its order comes from the first line only.
   */
  lemma ListStep(lines: seq<string>, i: nat, ids: nat -> string)
    requires i < |lines| && IsListLine(lines[i])
    requires !HeadingMatch(lines[i]) && ImageMatch(lines[i]).None? && LinkLineMatch(lines[i]).None?
    ensures var e := Step(lines, i, ids).1;
      && (forall k :: i <= k < e ==> IsListLine(lines[k]))
      && (e < |lines| ==> !IsListLine(lines[e]))
      && Step(lines, i, ids).0 == ListOf(lines[i..e])
  {
  }

  /**
   * A line starting with '|' that is not a list line starts a table that consumes the
   * maximal run of lines starting with '|' or made of `[\s|:-]`.
   */
  lemma TableStep(lines: seq<string>, i: nat, ids: nat -> string)
    requires i < |lines| && StartsWith(lines[i], "|")
    requires !HeadingMatch(lines[i]) && ImageMatch(lines[i]).None? && LinkLineMatch(lines[i]).None?
    requires !IsListLine(lines[i])
    ensures var e := Step(lines, i, ids).1;
      && (forall k :: i <= k < e ==> IsTableLine(lines[k]))
      && (e < |lines| ==> !IsTableLine(lines[e]))
      && Step(lines, i, ids).0 == ParseTableSpec(lines[i..e])
  {
  }

  /**
   * Any other non-blank line starts a paragraph that runs until a blank line, a line
   * starting with '#' or '|', or a list line; its text joins those lines with newlines.
   */
  lemma ParagraphStep(lines: seq<string>, i: nat, ids: nat -> string)
    requires i < |lines| && Strip(lines[i]) != ""
    requires !HeadingMatch(lines[i]) && ImageMatch(lines[i]).None? && LinkLineMatch(lines[i]).None?
    requires !IsListLine(lines[i]) && !StartsWith(lines[i], "|")
    ensures var e := Step(lines, i, ids).1;
      && (forall k :: i < k < e ==> ContinuesParagraph(lines[k]))
      && (e < |lines| ==> !ContinuesParagraph(lines[e]))
      && Step(lines, i, ids).0 == ParagraphOf(ParaText(lines, i, e))
  {
  }

  /** Every block a step yields satisfies the record constraints. */
  lemma StepValid(lines: seq<string>, i: nat, ids: nat -> string)
    requires i < |lines|
    ensures Step(lines, i, ids).0.Some? ==> ValidBlock(Step(lines, i, ids).0.value)
  {
    var line := lines[i];
    if !HeadingMatch(line) && ImageMatch(line).None? && LinkLineMatch(line).None? && !IsListLine(line)
      && StartsWith(line, "|") {
      ParseTableShape(lines[i..RunEnd(lines, i, IsTableLine)]);
    }
  }

  lemma {:induction false} ParseFromValid(lines: seq<string>, i: nat, ids: nat -> string)
    requires i <= |lines|
    ensures forall k :: 0 <= k < |ParseFrom(lines, i, ids)| ==> ValidBlock(ParseFrom(lines, i, ids)[k])
    decreases |lines| - i
  {
    if i < |lines| {
      StepValid(lines, i, ids);
      ParseFromValid(lines, Step(lines, i, ids).1, ids);
    }
  }

  // ---------------------------------------------------------------- document

  predicate IsH1(b: Block) {
    b.HeadingBlock? && b.level == 1
  }

  /** The index of the first level-1 heading, or `|blocks|` when there is none. */
  function FirstH1At(blocks: seq<Block>, from: nat): (k: nat)
    requires from <= |blocks|
    ensures from <= k <= |blocks|
    ensures k < |blocks| ==> IsH1(blocks[k])
    ensures forall j :: from <= j < k ==> !IsH1(blocks[j])
    decreases |blocks| - from
  {
    if from == |blocks| || IsH1(blocks[from]) then from else FirstH1At(blocks, from + 1)
  }

  /** The text of the first level-1 heading, if any. */
  function FirstH1(blocks: seq<Block>): Option<string> {
    var k := FirstH1At(blocks, 0);
    if k < |blocks| then Some(blocks[k].text) else None
  }

  /** The title loop of `extract`: stops at the first level-1 heading. */
  method FindTitle(blocks: seq<Block>) returns (title: Option<string>)
    ensures title.None? <==> forall j :: 0 <= j < |blocks| ==> !IsH1(blocks[j])
    ensures title == FirstH1(blocks)
  {
    title := None;
    for k := 0 to |blocks|
      invariant forall j :: 0 <= j < k ==> !IsH1(blocks[j])
      invariant FirstH1At(blocks, 0) == FirstH1At(blocks, k)
    {
      if blocks[k].HeadingBlock? && blocks[k].level == 1 {
        title := Some(blocks[k].text);
        return;
      }
    }
  }

  function ExtractSpec(path: string, content: string, base: Metadata, ids: nat -> string): Document {
    var blocks := ParseContentSpec(content, ids);
    var h1 := FirstH1(blocks);
    var dir := TextExtractor.DirectionOf(content);
    Document(Some(if h1.Some? && h1.value != "" then h1.value else Stem(path)),
             ExtractMetadata(content, base), [Page(1, None, blocks, dir)], dir)
  }

  /** `extract`: one page; the title is the first level-1 heading's text, else the file stem. */
  method Extract(path: string, content: string, base: Metadata, ids: nat -> string) returns (d: Document)
    ensures d == ExtractSpec(path, content, base, ids)
  {
    var metadata := ExtractMetadata(content, base);
    var blocks := ParseContent(content, ids);
    var dir := DetectTextDirection(content);
    var direction := if dir == "rtl" then RTL else LTR;
    var title := FindTitle(blocks);
    var docTitle := if title.Some? && title.value != "" then title.value else Stem(path);
    d := Document(Some(docTitle), metadata, [Page(1, None, blocks, direction)], direction);
  }

  /** The extracted document satisfies every record constraint. */
  lemma ExtractValid(path: string, content: string, base: Metadata, ids: nat -> string)
    ensures ValidDocument(ExtractSpec(path, content, base, ids))
  {
    var lines := SplitOn(StripFrontMatter(content), '\n');
    ParseFromValid(lines, 0, ids);
    TextExtractor.SinglePageValid(ParseFrom(lines, 0, ids), TextExtractor.DirectionOf(content));
  }
}
