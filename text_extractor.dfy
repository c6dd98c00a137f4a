/**
 * The plain-text extractor: the file's paragraphs become headings, lists or paragraphs
 * on a single page; the title comes from the first line.
 */
module TextExtractor {
  import opened Wrappers
  import opened Strings
  import opened Seqs
  import opened Paths
  import opened DocumentModel
  import opened TextUtils

  const SupportedExtensions: seq<string> := [".txt"]

  // ---------------------------------------------------------------- metadata

  /** The stripped first line, or None when it is longer than 100 characters. */
  function FirstLineTitle(content: string): Option<string> {
    var first := Strip(SplitOn(content, '\n')[0]);
    if first != "" && |first| > 100 then None else Some(first)
  }

  /** `title or source_filename`. */
  function MetadataTitle(content: string, sourceFilename: Option<string>): (r: Option<string>)
    ensures var first := Strip(SplitOn(content, '\n')[0]);
      && (0 < |first| <= 100 ==> r == Some(first))
      && (|first| == 0 || |first| > 100 ==> r == sourceFilename)
  {
    var title := FirstLineTitle(content);
    if title.Some? && title.value != "" then title else sourceFilename
  }

  /** `_extract_metadata`: title, word count and the fixed format "txt". */
  function ExtractMetadata(content: string, base: Metadata): (m: Metadata)
    ensures m.title == MetadataTitle(content, base.sourceFilename)
    ensures m.wordCount == Some(CountWords(content) as int)
    ensures m.sourceFormat == Some("txt")
    ensures m.sourceFilename == base.sourceFilename && m.modifiedDate == base.modifiedDate
    ensures m.author.None? && m.keywords == []
  {
    EmptyMetadata.(title := MetadataTitle(content, base.sourceFilename),
                   wordCount := Some(CountWords(content) as int),
                   sourceFormat := Some("txt"),
                   sourceFilename := base.sourceFilename,
                   modifiedDate := base.modifiedDate)
  }

  // ---------------------------------------------------------------- headings

  /** `str.isupper()` over ASCII letters: some upper-case letter and no lower-case one. */
  predicate IsUpper(s: string) {
    (exists i :: 0 <= i < |s| && IsAsciiUpper(s[i])) && forall i :: 0 <= i < |s| ==> !IsAsciiLower(s[i])
  }

  /** `_is_heading`. */
  predicate IsHeadingText(text: string, isFirst: bool) {
    if |text| > 100 then false
    else if '\n' in text then false
    else if isFirst && |text| < 80 then true
    else IsUpper(text) && |text| < 60
  }

  /**
   * A heading is a single line shorter than 80 characters; one that is not the first
   * paragraph is upper-case and shorter than 60. Conversely a short single first line,
   * or a short single upper-case line, is a heading.
   */
  lemma HeadingTextShape(text: string, isFirst: bool)
    ensures IsHeadingText(text, isFirst) ==> '\n' !in text && |text| < 80
    ensures IsHeadingText(text, isFirst) && !isFirst ==> IsUpper(text) && |text| < 60
    ensures '\n' !in text && isFirst && |text| < 80 ==> IsHeadingText(text, isFirst)
    ensures '\n' !in text && IsUpper(text) && |text| < 60 ==> IsHeadingText(text, isFirst)
  {
  }

  // ---------------------------------------------------------------- list markers

  predicate IsBulletChar(c: char) {
    c == '-' || c == '*' || c == '\U{2022}'
  }

  /** The end of the run of ASCII digits starting at `i`. */
  function DigitRunEnd(t: string, i: nat): (k: nat)
    requires i <= |t|
    ensures i <= k <= |t|
    ensures forall j :: i <= j < k ==> IsAsciiDigit(t[j])
    ensures k < |t| ==> !IsAsciiDigit(t[k])
    decreases |t| - i
  {
    if i < |t| && IsAsciiDigit(t[i]) then DigitRunEnd(t, i + 1) else i
  }

  /** `^\s*[-*•]\s+`. */
  predicate BulletMarker(line: string) {
    var t := LStrip(line);
    |t| >= 2 && IsBulletChar(t[0]) && IsSpace(t[1])
  }

  /** `^\s*\d+[.)]\s+`. */
  predicate NumericMarker(line: string) {
    var t := LStrip(line);
    var k := DigitRunEnd(t, 0);
    0 < k && k + 1 < |t| && (t[k] == '.' || t[k] == ')') && IsSpace(t[k + 1])
  }

  /** `^\s*[a-zA-Z][.)]\s+`. */
  predicate AlphaMarker(line: string) {
    var t := LStrip(line);
    |t| >= 3 && IsAsciiLetter(t[0]) && (t[1] == '.' || t[1] == ')') && IsSpace(t[2])
  }

  predicate AnyMarker(line: string) {
    BulletMarker(line) || NumericMarker(line) || AlphaMarker(line)
  }

  /** The number of lines that open with a list marker. */
  function MarkedCount(lines: seq<string>): (n: nat)
    ensures n <= |lines|
    decreases |lines|
  {
    if |lines| == 0 then 0
    else MarkedCount(lines[..|lines| - 1]) + (if AnyMarker(lines[|lines| - 1]) then 1 else 0)
  }

  /** At least two lines, and at least half of them marked. */
  predicate IsListText(text: string) {
    var lines := SplitOn(text, '\n');
    |lines| >= 2 && 2 * MarkedCount(lines) >= |lines|
  }

  /** `_is_list`: counts the marked lines. */
  method IsList(text: string) returns (r: bool)
    ensures r == IsListText(text)
  {
    var lines := SplitOn(text, '\n');
    if |lines| < 2 {
      return false;
    }
    var matches := 0;
    for i := 0 to |lines|
      invariant matches == MarkedCount(lines[..i])
    {
      assert lines[..i + 1][..i] == lines[..i];
      if BulletMarker(lines[i]) || NumericMarker(lines[i]) || AlphaMarker(lines[i]) {
        matches := matches + 1;
      }
    }
    assert lines[..|lines|] == lines;
    r := 2 * matches >= |lines|;
  }

  lemma {:induction false} MarkedCountAll(lines: seq<string>)
    requires forall i :: 0 <= i < |lines| ==> AnyMarker(lines[i])
    ensures MarkedCount(lines) == |lines|
    decreases |lines|
  {
    if |lines| > 0 {
      MarkedCountAll(lines[..|lines| - 1]);
    }
  }

  /** Single-line text is never a list; several lines that are all marked always are. */
  lemma IsListShape(text: string)
    ensures '\n' !in text ==> !IsListText(text)
    ensures '\n' in text && (forall i :: 0 <= i < |SplitOn(text, '\n')| ==> AnyMarker(SplitOn(text, '\n')[i]))
      ==> IsListText(text)
  {
    if '\n' in text && forall i :: 0 <= i < |SplitOn(text, '\n')| ==> AnyMarker(SplitOn(text, '\n')[i]) {
      MarkedCountAll(SplitOn(text, '\n'));
    }
  }

  /** The two tests of `_is_ordered_list` on one line: a numeric or an alphabetic marker. */
  predicate OrderedLine(line: string) {
    NumericMarker(line) || AlphaMarker(line)
  }

  /** Some line carries a numeric or alphabetic marker. */
  predicate IsOrderedText(text: string) {
    var lines := SplitOn(text, '\n');
    exists i :: 0 <= i < |lines| && OrderedLine(lines[i])
  }

  /** `_is_ordered_list`: stops at the first numbered or lettered line. */
  method IsOrderedList(text: string) returns (r: bool)
    ensures r == IsOrderedText(text)
  {
    var lines := SplitOn(text, '\n');
    for i := 0 to |lines|
      invariant forall j :: 0 <= j < i ==> !OrderedLine(lines[j])
    {
      if OrderedLine(lines[i]) {
        return true;
      }
    }
    return false;
  }

  // ---------------------------------------------------------------- list items

  /** The characters of `[-*•\d.)\s]`. */
  predicate IsMarkerChar(c: char) {
    IsBulletChar(c) || IsAsciiDigit(c) || c == '.' || c == ')' || IsSpace(c)
  }

  function MarkerPrefixEnd(line: string, i: nat): (k: nat)
    requires i <= |line|
    ensures i <= k <= |line|
    ensures k < |line| ==> !IsMarkerChar(line[k])
    decreases |line| - i
  {
    if i < |line| && IsMarkerChar(line[i]) then MarkerPrefixEnd(line, i + 1) else i
  }

  /** One list item: the line without its leading marker characters, stripped. */
  function ItemOf(line: string): string {
    Strip(line[MarkerPrefixEnd(line, 0)..])
  }

  /** An item is stripped and never begins with a marker character. */
  lemma ItemOfShape(line: string)
    ensures Strip(ItemOf(line)) == ItemOf(line)
    ensures |ItemOf(line)| > 0 ==> !IsMarkerChar(ItemOf(line)[0])
  {
    var d := line[MarkerPrefixEnd(line, 0)..];
    var a := StripIsSlice(d);
    StripOfStripped(Strip(d));
  }

  /** The non-empty items of the lines, in order. */
  function ListItems(lines: seq<string>): seq<string>
    decreases |lines|
  {
    if |lines| == 0 then []
    else
      var item := ItemOf(lines[|lines| - 1]);
      ListItems(lines[..|lines| - 1]) + (if item != "" then [item] else [])
  }

  function ParseListSpec(text: string): seq<string> {
    ListItems(SplitOn(text, '\n'))
  }

  /** `_parse_list`. */
  method ParseList(text: string) returns (items: seq<string>)
    ensures items == ParseListSpec(text)
  {
    var lines := SplitOn(text, '\n');
    items := [];
    for i := 0 to |lines|
      invariant items == ListItems(lines[..i])
    {
      assert lines[..i + 1][..i] == lines[..i];
      var k := MarkerPrefixEnd(lines[i], 0);
      var item := Strip(lines[i][k..]);
      if item != "" {
        items := items + [item];
      }
    }
    assert lines[..|lines|] == lines;
  }

  /** Every parsed item is non-empty, stripped, and does not begin with `-*•`, a digit, `.`, `)` or whitespace. */
  lemma {:induction false} ListItemsShape(lines: seq<string>)
    ensures forall k :: 0 <= k < |ListItems(lines)| ==>
      |ListItems(lines)[k]| > 0 && Strip(ListItems(lines)[k]) == ListItems(lines)[k]
      && !IsMarkerChar(ListItems(lines)[k][0])
    decreases |lines|
  {
    if |lines| > 0 {
      ListItemsShape(lines[..|lines| - 1]);
      ItemOfShape(lines[|lines| - 1]);
    }
  }

  // ---------------------------------------------------------------- links

  function MatchLink(m: UrlMatch): Link {
    Link(m.url, m.url, Some(m.start as int), Some(m.end as int))
  }

  function LinksOf(text: string): seq<Link> {
    Map(ExtractUrls(text), MatchLink)
  }

  /** `_extract_links`: one link per URL match. */
  method ExtractLinks(text: string) returns (links: seq<Link>)
    ensures links == LinksOf(text)
  {
    var urls := ExtractUrls(text);
    links := [];
    for i := 0 to |urls|
      invariant links == Map(urls[..i], MatchLink)
    {
      MapSnoc([], urls, i, MatchLink);
      links := links + [MatchLink(urls[i])];
    }
    assert urls[..|urls|] == urls;
  }

  /**
   * Each link's text is its URL, it is positioned on a match of the URL pattern, and the
   * URL is the matched slice, put behind "https://" when the slice does not start with
   * "http"; the links are in text order.
   */
  lemma LinksOfSpec(text: string)
    ensures forall k :: 0 <= k < |LinksOf(text)| ==>
      var l := LinksOf(text)[k];
      && l.text == l.url && Positioned(l)
      && 0 <= l.startIndex.value < l.endIndex.value <= |text|
      && UrlMatchEnd(text, l.startIndex.value) == Some(l.endIndex.value)
      && l.url == (if StartsWith(text[l.startIndex.value..l.endIndex.value], "http")
                   then text[l.startIndex.value..l.endIndex.value]
                   else "https://" + text[l.startIndex.value..l.endIndex.value])
    ensures forall k :: 0 <= k < |LinksOf(text)| - 1 ==>
      LinksOf(text)[k].endIndex.value <= LinksOf(text)[k + 1].startIndex.value
  {
    var ms := ExtractUrls(text);
    ExtractUrlsSound(text);
    forall k | 0 <= k < |ms| ensures UrlText(text, ms[k]) { }
  }

  /** Every match position that no earlier link covers starts a link. */
  lemma LinksOfComplete(text: string, q: nat)
    requires q < |text| && UrlMatchEnd(text, q).Some?
    requires forall k :: 0 <= k < |LinksOf(text)| ==>
      !(LinksOf(text)[k].startIndex.value < q < LinksOf(text)[k].endIndex.value)
    ensures exists k :: 0 <= k < |LinksOf(text)| && LinksOf(text)[k].startIndex == Some(q as int)
  {
    var ms := ExtractUrls(text);
    var ls := LinksOf(text);
    forall k | 0 <= k < |ms| ensures !(ms[k].start < q < ms[k].end) {
      assert ls[k] == MatchLink(ms[k]);
    }
    ExtractUrlsComplete(text, q);
    var k :| 0 <= k < |ms| && ms[k].start == q;
    assert ls[k] == MatchLink(ms[k]);
  }

  // ---------------------------------------------------------------- blocks

  function DirectionOf(text: string): TextDirection {
    if Direction(text) == "rtl" then RTL else LTR
  }

  /** One paragraph of the source at index `i`, cleaned and classified; None when it cleans to "". */
  function ClassifyParagraph(raw: string, i: nat): Option<Block> {
    var p := CleanTextSpec(raw, true);
    if p == "" then None
    else if IsHeadingText(p, i == 0) then Some(Heading(if i == 0 then 1 else 2, p, DirectionOf(p)))
    else if IsListText(p) then Some(ListBlock(DirectionOf(p), None, ParseListSpec(p), IsOrderedText(p), []))
    else Some(Paragraph(p, LinksOf(p), false, false, DirectionOf(p)))
  }

  /**
   * Heading first, then list, then paragraph: a kept paragraph is a heading exactly when
   * the heading test holds, a list exactly when it fails and the list test holds, and a
   * heading has level 1 exactly when it is the first paragraph.
   */
  lemma ClassifyPriority(raw: string, i: nat)
    ensures ClassifyParagraph(raw, i).None? <==> CleanTextSpec(raw, true) == ""
    ensures ClassifyParagraph(raw, i).Some? ==>
      var p := CleanTextSpec(raw, true);
      var b := ClassifyParagraph(raw, i).value;
      && (b.HeadingBlock? <==> IsHeadingText(p, i == 0))
      && (b.ListBlock? <==> !IsHeadingText(p, i == 0) && IsListText(p))
      && (b.ParagraphBlock? <==> !IsHeadingText(p, i == 0) && !IsListText(p))
      && (b.HeadingBlock? ==> b.level == (if i == 0 then 1 else 2) && b.text == p)
  {
  }

  function OptionSeq<T>(o: Option<T>): seq<T> {
    if o.Some? then [o.value] else []
  }

  /** The blocks of the paragraphs, each classified with its index among all paragraphs. */
  function Classified(paras: seq<string>, classify: (string, nat) -> Option<Block>): seq<Block>
    decreases |paras|
  {
    if |paras| == 0 then []
    else Classified(paras[..|paras| - 1], classify) + OptionSeq(classify(paras[|paras| - 1], |paras| - 1))
  }

  lemma ClassifiedSnoc(paras: seq<string>, i: nat, classify: (string, nat) -> Option<Block>)
    requires i < |paras|
    ensures Classified(paras[..i + 1], classify) == Classified(paras[..i], classify) + OptionSeq(classify(paras[i], i))
  {
    assert paras[..i + 1][..i] == paras[..i];
  }

  /** One loop step of `_parse_content`. */
  method ClassifyOne(raw: string, i: nat) returns (b: Option<Block>)
    ensures b == ClassifyParagraph(raw, i)
  {
    var p := CleanText(raw, true);
    if p == "" {
      return None;
    }
    var dir := DetectTextDirection(p);
    var direction := if dir == "rtl" then RTL else LTR;
    if IsHeadingText(p, i == 0) {
      return Some(Heading(if i == 0 then 1 else 2, p, direction));
    }
    var isList := IsList(p);
    if isList {
      var items := ParseList(p);
      var ordered := IsOrderedList(p);
      return Some(ListBlock(direction, None, items, ordered, []));
    }
    var links := ExtractLinks(p);
    return Some(Paragraph(p, links, false, false, direction));
  }

  /** `_parse_content`: the paragraphs in order, empty ones skipped. */
  method ParseContent(content: string) returns (blocks: seq<Block>)
    ensures blocks == Classified(SplitIntoParagraphs(content), ClassifyParagraph)
  {
    var paras := SplitIntoParagraphs(content);
    blocks := [];
    for i := 0 to |paras|
      invariant blocks == Classified(paras[..i], ClassifyParagraph)
    {
      ClassifiedSnoc(paras, i, ClassifyParagraph);
      var b := ClassifyOne(paras[i], i);
      blocks := blocks + OptionSeq(b);
    }
    assert paras[..|paras|] == paras;
  }

  /** A classification at index `i` that yields a heading gives level 1 or 2, and level 1 only at index 0. */
  predicate HeadingLevelFits(b: Option<Block>, i: nat) {
    b.Some? ==> (ValidBlock(b.value)
      && (b.value.HeadingBlock? ==> (b.value.level == 1 && i == 0) || b.value.level == 2))
  }

  lemma ClassifyHeadingLevel(raw: string, i: nat)
    ensures HeadingLevelFits(ClassifyParagraph(raw, i), i)
  {
    ClassifyPriority(raw, i);
  }

  /** Only the first block can be a level-1 heading, every heading has level 1 or 2, and every block is valid. */
  lemma {:induction false} ClassifiedHeadings(paras: seq<string>, classify: (string, nat) -> Option<Block>)
    requires forall raw, i :: HeadingLevelFits(classify(raw, i), i)
    ensures forall k :: 0 <= k < |Classified(paras, classify)| ==> ValidBlock(Classified(paras, classify)[k])
    ensures forall k :: 0 <= k < |Classified(paras, classify)| && Classified(paras, classify)[k].HeadingBlock? ==>
      (Classified(paras, classify)[k].level == 1 && k == 0) || Classified(paras, classify)[k].level == 2
    decreases |paras|
  {
    if |paras| > 0 {
      var init := paras[..|paras| - 1];
      ClassifiedHeadings(init, classify);
      assert HeadingLevelFits(classify(paras[|paras| - 1], |paras| - 1), |paras| - 1);
      if |paras| == 1 {
        assert Classified(init, classify) == [];
      }
    }
  }

  // ---------------------------------------------------------------- document

  function ExtractSpec(path: string, content: string, base: Metadata): Document {
    var blocks := Classified(SplitIntoParagraphs(content), ClassifyParagraph);
    var dir := DirectionOf(content);
    Document(Some(Stem(path)), ExtractMetadata(content, base), [Page(1, None, blocks, dir)], dir)
  }

  /** `extract`: one page holding every block, titled with the file stem. */
  method Extract(path: string, content: string, base: Metadata) returns (d: Document)
    ensures d == ExtractSpec(path, content, base)
  {
    var metadata := ExtractMetadata(content, base);
    var blocks := ParseContent(content);
    var dir := DetectTextDirection(content);
    var direction := if dir == "rtl" then RTL else LTR;
    d := Document(Some(Stem(path)), metadata, [Page(1, None, blocks, direction)], direction);
  }

  /** The extracted document satisfies every record constraint; a level-1 heading can only open the page. */
  lemma ExtractValid(path: string, content: string, base: Metadata)
    ensures ValidDocument(ExtractSpec(path, content, base))
    ensures |ExtractSpec(path, content, base).pages| == 1
    ensures var blocks := ExtractSpec(path, content, base).pages[0].blocks;
      forall k :: 0 < k < |blocks| && blocks[k].HeadingBlock? ==> blocks[k].level == 2
  {
    forall raw, i: nat ensures HeadingLevelFits(ClassifyParagraph(raw, i), i) {
      ClassifyHeadingLevel(raw, i);
    }
    var blocks := Classified(SplitIntoParagraphs(content), ClassifyParagraph);
    ClassifiedHeadings(SplitIntoParagraphs(content), ClassifyParagraph);
    SinglePageValid(blocks, DirectionOf(content));
  }

  lemma SinglePageValid(blocks: seq<Block>, dir: TextDirection)
    requires forall k :: 0 <= k < |blocks| ==> ValidBlock(blocks[k])
    ensures ValidPage(Page(1, None, blocks, dir))
  {
    forall b | b in blocks ensures ValidBlock(b) {
      var k :| 0 <= k < |blocks| && blocks[k] == b;
    }
  }
}
