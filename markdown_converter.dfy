/**
 * The Markdown converter: optional YAML-like frontmatter, an ATX title, then each page's
 * blocks as Markdown paragraphs separated by blank lines, all joined with newlines.
 */
module MarkdownConverter {
  import opened Wrappers
  import opened Strings
  import opened Seqs
  import opened DocumentModel

  const OutputExtension := ".md"

  datatype MarkdownOptions = MarkdownOptions(includeFrontmatter: bool, embedImages: bool)

  // ---------------------------------------------------------------- YAML escaping

  /** The replacements of `_escape_yaml`: quotes get a backslash, newlines become spaces. */
  const YamlPairs: seq<(char, string)> := [('"', "\\\""), ('\n', " ")]

  /** `_escape_yaml`: "" for empty text, else the two replacements in order. */
  function EscapeYaml(text: string): string {
    if text == "" then "" else ReplaceAll(text, YamlPairs)
  }

  function YamlChar(c: char): string {
    if c == '"' then "\\\"" else if c == '\n' then " " else [c]
  }

  lemma YamlCharChain(c: char)
    ensures ReplaceAll([c], YamlPairs) == YamlChar(c)
  {
    ReplaceCharSingle(c, '"', "\\\"");
    if c == '"' {
      ReplaceAllAbsent("\\\"", YamlPairs[1..]);
    } else {
      ReplaceCharSingle(c, '\n', " ");
    }
  }

  lemma {:induction false} EscapeYamlIsPointwise(s: string)
    ensures EscapeYaml(s) == FlatMap(s, YamlChar)
  {
    if |s| > 0 {
      EscapeYamlIsPointwise(s[1..]);
      assert s == [s[0]] + s[1..];
      ReplaceAllAppend([s[0]], s[1..], YamlPairs);
      YamlCharChain(s[0]);
      if s[1..] == "" {
        ReplaceAllAbsent("", YamlPairs);
      }
    }
  }

  /** No newline, and a backslash before every quote. */
  predicate YamlSafe(r: string) {
    '\n' !in r && forall i :: 0 <= i < |r| && r[i] == '"' ==> i > 0 && r[i - 1] == '\\'
  }

  lemma {:induction false} FlatMapYamlSafe(s: string)
    ensures YamlSafe(FlatMap(s, YamlChar))
  {
    if |s| > 0 {
      FlatMapYamlSafe(s[1..]);
      var e, b := YamlChar(s[0]), FlatMap(s[1..], YamlChar);
      var t := e + b;
      assert '\n' !in e;
      forall i | 0 <= i < |t| && t[i] == '"' ensures i > 0 && t[i - 1] == '\\' {
        if i < |e| {
          assert i == 1 && e == "\\\"";
        } else {
          assert b[i - |e|] == '"';
          if i - |e| == 0 {
            assert false;
          }
          assert t[i - 1] == b[i - |e| - 1];
        }
      }
    }
  }

  /** Escaped YAML text has no newline and every `"` is preceded by a backslash. */
  lemma EscapeYamlSafe(text: string)
    ensures YamlSafe(EscapeYaml(text))
  {
    EscapeYamlIsPointwise(text);
    FlatMapYamlSafe(text);
  }

  // ---------------------------------------------------------------- frontmatter

  function QuotedField(key: string, value: string): string {
    key + ": \"" + value + "\""
  }

  /** The metadata lines of the frontmatter, each present only when its field is set. */
  function FrontmatterFields(d: Document): seq<string> {
    var m := d.metadata;
    (if Truthy(m.title) then [QuotedField("title", EscapeYaml(m.title.value))] else [])
    + (if Truthy(m.author) then [QuotedField("author", EscapeYaml(m.author.value))] else [])
    + (if Truthy(m.subject) then [QuotedField("description", EscapeYaml(m.subject.value))] else [])
    + (if m.keywords != [] then [QuotedField("keywords", EscapeYaml(Join(m.keywords, ", ")))] else [])
    + (if m.createdDate.Some? then [QuotedField("date", m.createdDate.value.iso)] else [])
    + (if Truthy(m.sourceFormat) then [QuotedField("source_format", m.sourceFormat.value)] else [])
    + (if d.direction == RTL then ["dir: rtl"] else [])
  }

  function FrontmatterLines(d: Document): seq<string> {
    ["---"] + FrontmatterFields(d) + ["---", ""]
  }

  /** `_generate_frontmatter`: "" unless some line lies between the two `---` lines. */
  function GenerateFrontmatter(d: Document): string {
    var lines := FrontmatterLines(d);
    if |lines| <= 3 then "" else Join(lines, "\n")
  }

  /** Some metadata line is produced. */
  predicate HasFrontmatterField(d: Document) {
    var m := d.metadata;
    Truthy(m.title) || Truthy(m.author) || Truthy(m.subject) || m.keywords != []
    || m.createdDate.Some? || Truthy(m.sourceFormat) || d.direction == RTL
  }

  /**
   * The frontmatter is "" exactly when no field is set and the direction is not RTL;
   * otherwise it opens with `---` and closes with `---` and a line break.
   */
  lemma FrontmatterShape(d: Document)
    ensures GenerateFrontmatter(d) == "" <==> !HasFrontmatterField(d)
    ensures HasFrontmatterField(d) ==>
      StartsWith(GenerateFrontmatter(d), "---\n") && EndsWith(GenerateFrontmatter(d), "\n---\n")
  {
    FieldsPresent(d);
    var f := FrontmatterFields(d);
    if |f| > 0 {
      Fenced(f);
    }
  }

  lemma FieldsPresent(d: Document)
    ensures |FrontmatterFields(d)| == 0 <==> !HasFrontmatterField(d)
  {
  }

  /** Lines between two `---` fences, joined, open and close with a fence. */
  lemma Fenced(f: seq<string>)
    requires |f| > 0
    ensures StartsWith(Join(["---"] + f + ["---", ""], "\n"), "---\n")
    ensures EndsWith(Join(["---"] + f + ["---", ""], "\n"), "\n---\n")
  {
    var fence, sep := "---", "\n";
    FenceJoin(f, fence, sep);
    FenceAffixes(fence, sep, Join(f, sep));
    FenceLiterals();
  }

  lemma FenceLiterals()
    ensures "---" + "\n" == "---\n"
    ensures "\n" + "---" + "\n" == "\n---\n"
  {
  }

  /** Joining lines between two fences and a final empty line. */
  lemma FenceJoin(f: seq<string>, fence: string, sep: string)
    requires |f| > 0
    ensures Join([fence] + f + [fence, ""], sep) == fence + sep + Join(f, sep) + sep + fence + sep
  {
    var head := [fence] + f;
    assert head[1..] == f;
    assert Join(head, sep) == fence + sep + Join(f, sep);
    JoinSnoc(head, fence, sep);
    assert [fence] + f + [fence, ""] == (head + [fence]) + [""];
    JoinSnoc(head + [fence], "", sep);
  }

  lemma FenceAffixes(fence: string, sep: string, m: string)
    ensures StartsWith(fence + sep + m + sep + fence + sep, fence + sep)
    ensures EndsWith(fence + sep + m + sep + fence + sep, sep + fence + sep)
  {
    var j := fence + sep + m + sep + fence + sep;
    assert j[..|fence + sep|] == fence + sep;
    assert j[|j| - |sep + fence + sep|..] == sep + fence + sep;
  }

  // ---------------------------------------------------------------- links

  function MdLink(l: Link): string {
    "[" + l.text + "](" + l.url + ")"
  }

  /** One step of `_apply_links`: splice a positioned link, else replace the first occurrence of its text. */
  function ApplyLinkMd(text: string, l: Link): string {
    if Positioned(l) then Splice(text, l.startIndex.value, l.endIndex.value, MdLink(l))
    else ReplaceFirst(text, l.text, MdLink(l))
  }

  /** The links applied from last to first. */
  function ApplyLinksSpec(text: string, links: seq<Link>): string
    decreases |links|
  {
    if |links| == 0 then text
    else ApplyLinksSpec(ApplyLinkMd(text, links[|links| - 1]), links[..|links| - 1])
  }

  /** `_apply_links`: a loop over the links in reverse order. */
  method ApplyLinks(text: string, links: seq<Link>) returns (r: string)
    ensures r == ApplyLinksSpec(text, links)
  {
    r := text;
    var i := |links|;
    assert links[..i] == links;
    while i > 0
      invariant 0 <= i <= |links|
      invariant ApplyLinksSpec(text, links) == ApplyLinksSpec(r, links[..i])
    {
      assert links[..i][..i - 1] == links[..i - 1];
      r := ApplyLinkMd(r, links[i - 1]);
      i := i - 1;
    }
  }

  /**
   * An unpositioned link wraps the first occurrence of its own text as `[text](url)`, and
   * leaves the text alone when its text does not occur.
   */
  lemma UnpositionedLinkMd(text: string, l: Link)
    requires !Positioned(l)
    ensures Absent(text, l.text) ==> ApplyLinksSpec(text, [l]) == text
    ensures forall i: nat :: FirstAt(text, l.text, i) ==> ApplyLinksSpec(text, [l]) == text[..i] + MdLink(l) + text[i + |l.text|..]
  {
    assert [l][..0] == [];
    ReplaceFirstSpec(text, l.text, MdLink(l));
  }

  /** Two positioned links with ordered, in-range, non-overlapping spans both land at their offsets. */
  lemma TwoLinksSpliced(text: string, l1: Link, l2: Link)
    requires Positioned(l1) && Positioned(l2)
    requires 0 <= l1.startIndex.value <= l1.endIndex.value <= l2.startIndex.value <= l2.endIndex.value <= |text|
    ensures ApplyLinksSpec(text, [l1, l2]) ==
      text[..l1.startIndex.value] + MdLink(l1) + text[l1.endIndex.value..l2.startIndex.value]
      + MdLink(l2) + text[l2.endIndex.value..]
  {
    ApplyTwo(text, l1, l2);
    SpliceTwice(text, l1.startIndex.value, l1.endIndex.value, l2.startIndex.value, l2.endIndex.value,
      MdLink(l1), MdLink(l2));
  }

  lemma ApplyTwo(text: string, l1: Link, l2: Link)
    requires Positioned(l1) && Positioned(l2)
    ensures ApplyLinksSpec(text, [l1, l2]) == Splice(Splice(text, l2.startIndex.value, l2.endIndex.value, MdLink(l2)),
      l1.startIndex.value, l1.endIndex.value, MdLink(l1))
  {
    var t1 := ApplyLinkMd(text, l2);
    assert ApplyLinksSpec(text, [l1, l2]) == ApplyLinksSpec(t1, [l1]) by {
      assert [l1, l2][..1] == [l1];
    }
    assert ApplyLinksSpec(t1, [l1]) == ApplyLinkMd(t1, l1) by {
      assert [l1][..0] == [];
    }
  }

  // ---------------------------------------------------------------- blocks

  /** `_convert_heading`: `level` hashes, a space, the linked text. */
  function HeadingMd(b: Block): string
    requires b.HeadingBlock?
  {
    Repeat('#', b.level) + " " + ApplyLinksSpec(b.text, b.links)
  }

  /** A heading of level 1..6 starts with exactly `level` hashes and a space, then its text. */
  lemma HeadingMdShape(b: Block)
    requires b.HeadingBlock? && 1 <= b.level <= 6
    ensures forall i :: 0 <= i < b.level ==> HeadingMd(b)[i] == '#'
    ensures HeadingMd(b)[b.level] == ' '
    ensures HeadingMd(b)[b.level + 1..] == ApplyLinksSpec(b.text, b.links)
  {
  }

  /** The emphasis marker: `***` for bold italic, `**` bold, `*` italic, none otherwise. */
  function Emphasis(isBold: bool, isItalic: bool): (r: string)
    ensures |r| == (if isBold then 2 else 0) + (if isItalic then 1 else 0)
    ensures forall i :: 0 <= i < |r| ==> r[i] == '*'
  {
    if isBold && isItalic then "***" else if isBold then "**" else if isItalic then "*" else ""
  }

  const RtlOpen := "<div dir=\"rtl\">\n\n"
  const RtlClose := "\n\n</div>"

  /** `_convert_paragraph`. */
  function ParagraphMd(b: Block): string
    requires b.ParagraphBlock?
  {
    var mark := Emphasis(b.isBold, b.isItalic);
    var text := mark + ApplyLinksSpec(b.text, b.links) + mark;
    if b.direction == RTL then RtlOpen + text + RtlClose else text
  }

  /**
   * A paragraph is its linked text between two equal emphasis markers; an RTL paragraph is
   * that, wrapped in an RTL div.
   */
  lemma ParagraphMdShape(b: Block)
    requires b.ParagraphBlock?
    ensures var mark := Emphasis(b.isBold, b.isItalic);
      var inner := mark + ApplyLinksSpec(b.text, b.links) + mark;
      && inner[|mark|..|inner| - |mark|] == ApplyLinksSpec(b.text, b.links)
      && (b.direction == RTL ==> ParagraphMd(b) == RtlOpen + inner + RtlClose)
      && (b.direction != RTL ==> ParagraphMd(b) == inner)
  {
    var mark := Emphasis(b.isBold, b.isItalic);
    var t := ApplyLinksSpec(b.text, b.links);
    var inner := mark + t + mark;
    assert inner[|mark|..|inner| - |mark|] == t;
  }

  /** The image source: the embedded data when embedding, else the path, else `image_<id>`. */
  function ImageSourceMd(b: Block, embedImages: bool): (r: string)
    requires b.ImageBlock?
    ensures embedImages && Truthy(b.imageData) ==> r == b.imageData.value
    ensures !(embedImages && Truthy(b.imageData)) && Truthy(b.imagePath) ==> r == b.imagePath.value
    ensures !(embedImages && Truthy(b.imageData)) && !Truthy(b.imagePath) ==> r == "image_" + b.imageId
  {
    if embedImages && Truthy(b.imageData) then b.imageData.value
    else if Truthy(b.imagePath) then b.imagePath.value
    else "image_" + b.imageId
  }

  /** `_convert_image`: never empty; a caption adds an italic line after a blank line. */
  function ImageMd(b: Block, embedImages: bool): (r: string)
    requires b.ImageBlock?
    ensures StartsWith(r, "![" + Or(b.altText, Or(b.caption, "Image")) + "](" + ImageSourceMd(b, embedImages) + ")")
    ensures Truthy(b.caption) ==> EndsWith(r, "\n\n*" + b.caption.value + "*")
  {
    var main := "![" + Or(b.altText, Or(b.caption, "Image")) + "](" + ImageSourceMd(b, embedImages) + ")";
    var r := if Truthy(b.caption) then main + "\n\n*" + b.caption.value + "*" else main;
    assert r[..|main|] == main;
    r
  }

  // ---------------------------------------------------------------- tables

  /** The widest row's cell count (0 for a table without rows). */
  function MaxCols(rows: seq<TableRow>): nat {
    Max(Map(rows, (r: TableRow) => |r.cells| as nat))
  }

  /** Cell `i` of a row, or "" past its end. */
  function CellAt(row: TableRow, i: nat): string {
    if i < |row.cells| then row.cells[i].content else ""
  }

  /** A row padded (or cut) to `m` cells. */
  function RowCells(row: TableRow, m: nat): (r: seq<string>)
    ensures |r| == m
    ensures forall i :: 0 <= i < m ==> r[i] == CellAt(row, i)
  {
    seq(m, (i: int) requires 0 <= i < m => CellAt(row, i))
  }

  /** The padding loop of `_convert_table`. */
  method PadRow(row: TableRow, m: nat) returns (cells: seq<string>)
    ensures cells == RowCells(row, m)
  {
    cells := [];
    for i := 0 to m
      invariant |cells| == i
      invariant forall k :: 0 <= k < i ==> cells[k] == CellAt(row, k)
    {
      var content := if i < |row.cells| then row.cells[i].content else "";
      cells := cells + [content];
    }
  }

  function TableLine(cells: seq<string>): string {
    "| " + Join(cells, " | ") + " |"
  }

  /** A separator cell: as many dashes as the header cell is long, at least three. */
  function DashCell(c: string): (r: string)
    ensures |r| == if |c| > 3 then |c| else 3
    ensures forall i :: 0 <= i < |r| ==> r[i] == '-'
  {
    Repeat('-', if |c| > 3 then |c| else 3)
  }

  function SeparatorLine(cells: seq<string>): string {
    TableLine(Map(cells, DashCell))
  }

  /** The lines for row `idx`: its cells, and after row 0 the separator. */
  function RowEntry(row: TableRow, idx: nat, m: nat): seq<string> {
    [TableLine(RowCells(row, m))] + (if idx == 0 then [SeparatorLine(RowCells(row, m))] else [])
  }

  /** The lines of the first `|rows|` rows, built row by row. */
  function RowsLines(rows: seq<TableRow>, m: nat): (r: seq<string>)
    ensures |r| == |rows| + (if |rows| > 0 then 1 else 0)
    decreases |rows|
  {
    if |rows| == 0 then [] else RowsLines(rows[..|rows| - 1], m) + RowEntry(rows[|rows| - 1], |rows| - 1, m)
  }

  function CaptionPart(caption: Option<string>): seq<string> {
    if Truthy(caption) then ["**" + caption.value + "**", ""] else []
  }

  function TableLinesMd(b: Block): seq<string>
    requires b.TableBlock?
  {
    if b.rows == [] then [] else CaptionPart(b.caption) + RowsLines(b.rows, MaxCols(b.rows))
  }

  lemma RowsSnoc(head: seq<string>, rows: seq<TableRow>, idx: nat, m: nat)
    requires idx < |rows|
    ensures head + RowsLines(rows[..idx + 1], m) == head + RowsLines(rows[..idx], m) + RowEntry(rows[idx], idx, m)
  {
    assert rows[..idx + 1][..idx] == rows[..idx];
  }

  /** The row loop of `_convert_table`. */
  method AppendRows(head: seq<string>, rows: seq<TableRow>, m: nat) returns (parts: seq<string>)
    ensures parts == head + RowsLines(rows, m)
  {
    parts := head;
    for idx := 0 to |rows|
      invariant parts == head + RowsLines(rows[..idx], m)
    {
      RowsSnoc(head, rows, idx, m);
      var cells := PadRow(rows[idx], m);
      parts := parts + [TableLine(cells)];
      if idx == 0 {
        parts := parts + [SeparatorLine(cells)];
      }
    }
    assert rows[..|rows|] == rows;
  }

  /** `_convert_table`: "" without rows, else the caption and one line per row plus a separator. */
  method ConvertTable(b: Block) returns (r: string)
    requires b.TableBlock?
    ensures r == (if b.rows == [] then "" else Join(TableLinesMd(b), "\n"))
  {
    if b.rows == [] {
      return "";
    }
    var parts := AppendRows(CaptionPart(b.caption), b.rows, MaxCols(b.rows));
    r := Join(parts, "\n");
  }

  /** Line 0 is row 0, line 1 the separator, and line k + 1 row k for every later row. */
  lemma {:induction false} RowsLinesAt(rows: seq<TableRow>, m: nat)
    requires |rows| > 0
    ensures RowsLines(rows, m)[0] == TableLine(RowCells(rows[0], m))
    ensures RowsLines(rows, m)[1] == SeparatorLine(RowCells(rows[0], m))
    ensures forall k :: 1 <= k < |rows| ==> RowsLines(rows, m)[k + 1] == TableLine(RowCells(rows[k], m))
    decreases |rows|
  {
    var n := |rows|;
    if n == 1 {
      assert rows[..0] == [];
    } else {
      var init := rows[..n - 1];
      RowsLinesAt(init, m);
      var prev := RowsLines(init, m);
      assert RowsLines(rows, m) == prev + [TableLine(RowCells(rows[n - 1], m))];
      forall k | 1 <= k < n ensures RowsLines(rows, m)[k + 1] == TableLine(RowCells(rows[k], m)) {
        if k < n - 1 {
          assert init[k] == rows[k];
        }
      }
    }
  }

  /**
   * A table without caption has one line per row plus the separator after row 0; row k's
   * line holds that row padded to `MaxCols` cells, and the separator holds one dash cell
   * per header cell.
   */
  lemma TableMdShape(b: Block)
    requires b.TableBlock? && b.rows != [] && !Truthy(b.caption)
    ensures |TableLinesMd(b)| == |b.rows| + 1
    ensures TableLinesMd(b)[0] == TableLine(RowCells(b.rows[0], MaxCols(b.rows)))
    ensures TableLinesMd(b)[1] == TableLine(Map(RowCells(b.rows[0], MaxCols(b.rows)), DashCell))
    ensures forall k :: 1 <= k < |b.rows| ==>
      TableLinesMd(b)[k + 1] == TableLine(RowCells(b.rows[k], MaxCols(b.rows)))
  {
    assert TableLinesMd(b) == RowsLines(b.rows, MaxCols(b.rows));
    RowsLinesAt(b.rows, MaxCols(b.rows));
  }

  // ---------------------------------------------------------------- lists

  /** Item `i`: numbered from 1 when ordered, else a dash bullet. */
  function ItemLine(items: seq<string>, isOrdered: bool, i: nat): string
    requires i < |items|
  {
    if isOrdered then IntToString(i + 1) + ". " + items[i] else "- " + items[i]
  }

  function ListLinesMd(b: Block): (r: seq<string>)
    requires b.ListBlock?
    ensures |r| == |b.items|
    ensures forall i :: 0 <= i < |b.items| ==> r[i] == ItemLine(b.items, b.isOrdered, i)
  {
    seq(|b.items|, (i: int) requires 0 <= i < |b.items| => ItemLine(b.items, b.isOrdered, i))
  }

  /** `_convert_list`: one line per item, in order. */
  method ConvertList(b: Block) returns (r: string)
    requires b.ListBlock?
    ensures r == Join(ListLinesMd(b), "\n")
  {
    var parts: seq<string> := [];
    for i := 0 to |b.items|
      invariant |parts| == i
      invariant forall k :: 0 <= k < i ==> parts[k] == ItemLine(b.items, b.isOrdered, k)
    {
      if b.isOrdered {
        parts := parts + [IntToString(i + 1) + ". " + b.items[i]];
      } else {
        parts := parts + ["- " + b.items[i]];
      }
    }
    assert parts == ListLinesMd(b);
    r := Join(parts, "\n");
  }

  predicate AllDigits(s: string) {
    forall i :: 0 <= i < |s| ==> IsAsciiDigit(s[i])
  }

  /**
   * Ordered items carry the numbers 1..n in order, read back from the line's leading digits;
   * unordered items start with "- ".
   */
  lemma ListNumbering(b: Block, i: nat)
    requires b.ListBlock? && i < |b.items|
    ensures b.isOrdered ==> exists digits: string :: (AllDigits(digits) && |digits| > 0
      && DecimalValue(digits) == i + 1 && ListLinesMd(b)[i] == digits + ". " + b.items[i])
    ensures !b.isOrdered ==> ListLinesMd(b)[i] == "- " + b.items[i]
  {
    if b.isOrdered {
      var digits := NatToString(i + 1);
      DecimalValueOfNatToString(i + 1);
      assert ListLinesMd(b)[i] == digits + ". " + b.items[i];
    }
  }

  // ---------------------------------------------------------------- dispatch

  function LinkMd(b: Block): string
    requires b.LinkBlock?
  {
    "[" + b.text + "](" + b.url + ")"
  }

  /** `_convert_block`: a positioned text block renders as "". */
  function BlockMd(b: Block, embedImages: bool): (r: string)
    ensures b.PositionedTextBlock? ==> r == ""
    ensures b.ImageBlock? ==> r != ""
  {
    match b
    case HeadingBlock(_, _, _, _, _) => HeadingMd(b)
    case ParagraphBlock(_, _, _, _, _, _) => ParagraphMd(b)
    case ImageBlock(_, _, _, _, _, _, _, _, _, _) => ImageMd(b, embedImages)
    case TableBlock(_, _, _, _, _, _, _) => if b.rows == [] then "" else Join(TableLinesMd(b), "\n")
    case ListBlock(_, _, _, _, _) => Join(ListLinesMd(b), "\n")
    case LinkBlock(_, _, _, _) => LinkMd(b)
    case PositionedTextBlock(_, _, _, _, _, _, _) => ""
  }

  /** What one block adds to a page: its text and a blank line, or nothing when it renders "". */
  function BlockEntries(embedImages: bool): Block -> seq<string> {
    (b: Block) => var c := BlockMd(b, embedImages); if c != "" then [c, ""] else []
  }

  // ---------------------------------------------------------------- pages

  function PageHead(p: Page, multiPage: bool): seq<string> {
    if multiPage then ["## " + Or(p.title, "Page " + IntToString(p.pageNumber)), ""] else []
  }

  function PageTail(multiPage: bool): seq<string> {
    if multiPage then ["---", ""] else []
  }

  function PageParts(p: Page, multiPage: bool, embedImages: bool): seq<string> {
    PageHead(p, multiPage) + FlatMap(p.blocks, BlockEntries(embedImages)) + PageTail(multiPage)
  }

  /** The block loop of `_convert_page`. */
  method AppendBlocks(head: seq<string>, blocks: seq<Block>, embedImages: bool) returns (parts: seq<string>)
    ensures parts == head + FlatMap(blocks, BlockEntries(embedImages))
  {
    parts := head;
    for i := 0 to |blocks|
      invariant parts == head + FlatMap(blocks[..i], BlockEntries(embedImages))
    {
      FlatMapSnoc(head, blocks, i, BlockEntries(embedImages));
      var content := BlockMd(blocks[i], embedImages);
      if content != "" {
        parts := parts + [content, ""];
      } else {
        assert parts + [] == parts;
      }
    }
    assert blocks[..|blocks|] == blocks;
  }

  /** `_convert_page`: a header when the document has several pages, the blocks, and a rule. */
  method ConvertPage(p: Page, multiPage: bool, embedImages: bool) returns (r: string)
    ensures r == Join(PageParts(p, multiPage, embedImages), "\n")
  {
    var parts := AppendBlocks(PageHead(p, multiPage), p.blocks, embedImages);
    parts := parts + PageTail(multiPage);
    r := Join(parts, "\n");
  }

  /**
   * In a multi-page document every page opens with a `## ` header (its title or "Page N")
   * and closes with a `---` rule; a single page has neither.
   */
  lemma PagePartsShape(p: Page, multiPage: bool, embedImages: bool)
    ensures multiPage ==> PageParts(p, multiPage, embedImages)[0] == "## " + Or(p.title, "Page " + IntToString(p.pageNumber))
    ensures multiPage ==> PageParts(p, multiPage, embedImages)[|PageParts(p, multiPage, embedImages)| - 2] == "---"
    ensures !multiPage ==> PageParts(p, multiPage, embedImages) == FlatMap(p.blocks, BlockEntries(embedImages))
  {
    var body := FlatMap(p.blocks, BlockEntries(embedImages));
    if !multiPage {
      assert [] + body + [] == body;
    }
  }

  // ---------------------------------------------------------------- document

  function PageMd(p: Page, multiPage: bool, embedImages: bool): string {
    Join(PageParts(p, multiPage, embedImages), "\n")
  }

  /** What one page adds: its text, or nothing when it renders "". */
  function PageEntries(multiPage: bool, embedImages: bool): Page -> seq<string> {
    (p: Page) => var c := PageMd(p, multiPage, embedImages); if c != "" then [c] else []
  }

  function FrontmatterPart(d: Document, opts: MarkdownOptions): seq<string> {
    if opts.includeFrontmatter && GenerateFrontmatter(d) != "" then [GenerateFrontmatter(d)] else []
  }

  function TitlePart(d: Document): seq<string> {
    if Truthy(d.title) then ["# " + d.title.value, ""] else []
  }

  /** The whole Markdown text. */
  function ConvertSpec(d: Document, opts: MarkdownOptions): string {
    Join(FrontmatterPart(d, opts) + TitlePart(d) + FlatMap(d.pages, PageEntries(|d.pages| > 1, opts.embedImages)), "\n")
  }

  /** The page loop of `convert`. */
  method AppendPages(head: seq<string>, pages: seq<Page>, multiPage: bool, embedImages: bool)
    returns (parts: seq<string>)
    ensures parts == head + FlatMap(pages, PageEntries(multiPage, embedImages))
  {
    parts := head;
    for i := 0 to |pages|
      invariant parts == head + FlatMap(pages[..i], PageEntries(multiPage, embedImages))
    {
      FlatMapSnoc(head, pages, i, PageEntries(multiPage, embedImages));
      var content := ConvertPage(pages[i], multiPage, embedImages);
      if content != "" {
        parts := parts + [content];
      } else {
        assert parts + [] == parts;
      }
    }
    assert pages[..|pages|] == pages;
  }

  /** `convert`: frontmatter, title and the non-empty pages, joined with newlines. */
  method Convert(d: Document, opts: MarkdownOptions) returns (r: string)
    ensures r == ConvertSpec(d, opts)
  {
    var parts := AppendPages(FrontmatterPart(d, opts) + TitlePart(d), d.pages, |d.pages| > 1, opts.embedImages);
    r := Join(parts, "\n");
  }

  /**
   * The output opens with the frontmatter when it is included and non-empty; otherwise a
   * titled document opens with its `# title` line.
   */
  lemma ConvertOpening(d: Document, opts: MarkdownOptions)
    ensures FrontmatterPart(d, opts) != [] ==> StartsWith(ConvertSpec(d, opts), "---\n")
    ensures FrontmatterPart(d, opts) == [] && Truthy(d.title) ==> StartsWith(ConvertSpec(d, opts), "# " + d.title.value)
  {
    var all := FrontmatterPart(d, opts) + TitlePart(d) + FlatMap(d.pages, PageEntries(|d.pages| > 1, opts.embedImages));
    if FrontmatterPart(d, opts) != [] {
      assert all[0] == GenerateFrontmatter(d);
      JoinEnds(all, "\n");
      FrontmatterShape(d);
      var s := ConvertSpec(d, opts);
      assert s[..|all[0]|] == all[0];
      assert s[..4] == all[0][..4];
    } else if Truthy(d.title) {
      assert all[0] == "# " + d.title.value;
      JoinEnds(all, "\n");
    }
  }
}
