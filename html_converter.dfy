/**
 * The HTML converter: a document becomes one HTML page whose lines are built in
 * order and joined with newlines. Text is escaped for `& < > " '`; positioned links
 * are spliced into the escaped text by offset.
 */
module HtmlConverter {
  import opened Wrappers
  import opened Strings
  import opened Seqs
  import opened DocumentModel

  const OutputExtension := ".html"

  /** The fixed style sheet emitted when styles are included; its text is not modelled. */
  const Styles: string

  datatype HtmlOptions = HtmlOptions(includeStyles: bool, embedImages: bool)

  // ---------------------------------------------------------------- escaping

  /** The escape of one character; `&` itself becomes an entity. */
  function EscapeChar(c: char): string {
    if c == '&' then "&amp;"
    else if c == '<' then "&lt;"
    else if c == '>' then "&gt;"
    else if c == '"' then "&quot;"
    else if c == '\'' then "&#39;"
    else [c]
  }

  /** The five replacements of `_escape_html`, `&` first. */
  const EscapePairs: seq<(char, string)> :=
    [('&', "&amp;"), ('<', "&lt;"), ('>', "&gt;"), ('"', "&quot;"), ('\'', "&#39;")]

  /** `_escape_html`: "" for empty text, else the chained replacements. */
  function EscapeHtml(text: string): string {
    if text == "" then "" else ReplaceAll(text, EscapePairs)
  }

  lemma ReplaceSpecialsChar(c: char)
    ensures ReplaceAll([c], EscapePairs) == EscapeChar(c)
  {
    var p := EscapePairs;
    ReplaceCharSingle(c, '&', "&amp;");
    if c == '&' {
      ReplaceAllAbsent("&amp;", p[1..]);
    } else {
      ReplaceCharSingle(c, '<', "&lt;");
      if c == '<' {
        ReplaceAllAbsent("&lt;", p[2..]);
      } else {
        ReplaceCharSingle(c, '>', "&gt;");
        if c == '>' {
          ReplaceAllAbsent("&gt;", p[3..]);
        } else {
          ReplaceCharSingle(c, '"', "&quot;");
          if c == '"' {
            ReplaceAllAbsent("&quot;", p[4..]);
          } else {
            ReplaceCharSingle(c, '\'', "&#39;");
          }
        }
      }
    }
  }

  /** Escaping works character by character: the chain equals the per-character escape. */
  lemma {:induction false} EscapeHtmlIsPointwise(s: string)
    ensures EscapeHtml(s) == FlatMap(s, EscapeChar)
  {
    if |s| > 0 {
      EscapeHtmlIsPointwise(s[1..]);
      assert s == [s[0]] + s[1..];
      ReplaceAllAppend([s[0]], s[1..], EscapePairs);
      ReplaceSpecialsChar(s[0]);
      if s[1..] == "" {
        ReplaceAllAbsent("", EscapePairs);
      }
    }
  }

  predicate IsRawSpecial(c: char) {
    c == '<' || c == '>' || c == '"' || c == '\''
  }

  lemma {:induction false} FlatMapNoRawSpecials(s: string)
    ensures forall i :: 0 <= i < |FlatMap(s, EscapeChar)| ==> !IsRawSpecial(FlatMap(s, EscapeChar)[i])
  {
    if |s| > 0 {
      FlatMapNoRawSpecials(s[1..]);
      var e, b := EscapeChar(s[0]), FlatMap(s[1..], EscapeChar);
      forall i | 0 <= i < |e + b| ensures !IsRawSpecial((e + b)[i]) {
        if i >= |e| {
          assert (e + b)[i] == b[i - |e|];
        }
      }
    }
  }

  /** Escaped text holds no raw `<`, `>`, `"` or `'`. */
  lemma EscapeHtmlNoRawSpecials(text: string)
    ensures forall i :: 0 <= i < |EscapeHtml(text)| ==> !IsRawSpecial(EscapeHtml(text)[i])
  {
    EscapeHtmlIsPointwise(text);
    FlatMapNoRawSpecials(text);
  }

  /** The inverse of escaping: each of the five entities back to its character. */
  function UnescapeHtml(s: string): string
    decreases |s|
  {
    if |s| == 0 then ""
    else if StartsWith(s, "&amp;") then "&" + UnescapeHtml(s[5..])
    else if StartsWith(s, "&lt;") then "<" + UnescapeHtml(s[4..])
    else if StartsWith(s, "&gt;") then ">" + UnescapeHtml(s[4..])
    else if StartsWith(s, "&quot;") then "\"" + UnescapeHtml(s[6..])
    else if StartsWith(s, "&#39;") then "'" + UnescapeHtml(s[5..])
    else [s[0]] + UnescapeHtml(s[1..])
  }

  lemma UnescapeAmp(rest: string)
    ensures UnescapeHtml("&amp;" + rest) == "&" + UnescapeHtml(rest)
  {
    var s := "&amp;" + rest;
    assert s[..5] == "&amp;" && s[5..] == rest;
  }

  lemma UnescapeLt(rest: string)
    ensures UnescapeHtml("&lt;" + rest) == "<" + UnescapeHtml(rest)
  {
    var s := "&lt;" + rest;
    assert s[1] == 'l';
    assert s[..4] == "&lt;" && s[4..] == rest;
  }

  lemma UnescapeGt(rest: string)
    ensures UnescapeHtml("&gt;" + rest) == ">" + UnescapeHtml(rest)
  {
    var s := "&gt;" + rest;
    assert s[1] == 'g';
    assert s[..4] == "&gt;" && s[4..] == rest;
  }

  lemma UnescapeQuot(rest: string)
    ensures UnescapeHtml("&quot;" + rest) == "\"" + UnescapeHtml(rest)
  {
    var s := "&quot;" + rest;
    assert s[1] == 'q';
    assert s[..6] == "&quot;" && s[6..] == rest;
  }

  lemma UnescapeApos(rest: string)
    ensures UnescapeHtml("&#39;" + rest) == "'" + UnescapeHtml(rest)
  {
    var s := "&#39;" + rest;
    assert s[1] == '#';
    assert s[..5] == "&#39;" && s[5..] == rest;
  }

  lemma UnescapePlain(c: char, rest: string)
    requires c != '&'
    ensures UnescapeHtml([c] + rest) == [c] + UnescapeHtml(rest)
  {
    var s := [c] + rest;
    assert s[0] == c && s[1..] == rest;
  }

  lemma UnescapeEscapeChar(c: char, rest: string)
    ensures UnescapeHtml(EscapeChar(c) + rest) == [c] + UnescapeHtml(rest)
  {
    if c == '&' {
      UnescapeAmp(rest);
    } else if c == '<' {
      UnescapeLt(rest);
    } else if c == '>' {
      UnescapeGt(rest);
    } else if c == '"' {
      UnescapeQuot(rest);
    } else if c == '\'' {
      UnescapeApos(rest);
    } else {
      UnescapePlain(c, rest);
    }
  }

  /** Escaping loses nothing: unescaping gives the original text back. */
  lemma {:induction false} UnescapeEscapeHtml(s: string)
    ensures UnescapeHtml(EscapeHtml(s)) == s
  {
    EscapeHtmlIsPointwise(s);
    UnescapeFlatMap(s);
  }

  lemma {:induction false} UnescapeFlatMap(s: string)
    ensures UnescapeHtml(FlatMap(s, EscapeChar)) == s
  {
    if |s| > 0 {
      UnescapeFlatMap(s[1..]);
      UnescapeEscapeChar(s[0], FlatMap(s[1..], EscapeChar));
    }
  }

  /** The character entity starting at `i`, if any. */
  predicate EntityAt(s: string, i: nat) {
    OccursAt(s, "&amp;", i) || OccursAt(s, "&lt;", i) || OccursAt(s, "&gt;", i)
    || OccursAt(s, "&quot;", i) || OccursAt(s, "&#39;", i)
  }

  predicate AmpersandsStartEntities(s: string) {
    forall i :: 0 <= i < |s| && s[i] == '&' ==> EntityAt(s, i)
  }

  lemma EntityAtShift(e: string, b: string, i: nat)
    requires EntityAt(b, i)
    ensures EntityAt(e + b, |e| + i)
  {
    var s := e + b;
    forall p | OccursAt(b, p, i) ensures OccursAt(s, p, |e| + i) {
      assert s[|e| + i..|e| + i + |p|] == b[i..i + |p|];
    }
  }

  /** Every `&` of escaped text begins one of the five entities, because `&` is replaced first. */
  lemma {:induction false} EscapedAmpersands(s: string)
    ensures AmpersandsStartEntities(EscapeHtml(s))
  {
    EscapeHtmlIsPointwise(s);
    FlatMapAmpersands(s);
  }

  lemma {:induction false} FlatMapAmpersands(s: string)
    ensures AmpersandsStartEntities(FlatMap(s, EscapeChar))
  {
    if |s| > 0 {
      FlatMapAmpersands(s[1..]);
      var e := EscapeChar(s[0]);
      var b := FlatMap(s[1..], EscapeChar);
      var t := e + b;
      assert FlatMap(s, EscapeChar) == t;
      forall i | 0 <= i < |t| && t[i] == '&' ensures EntityAt(t, i) {
        if i < |e| {
          assert i == 0 && t[..|e|] == e;
        } else {
          assert b[i - |e|] == '&';
          EntityAtShift(e, b, i - |e|);
        }
      }
    }
  }

  // ---------------------------------------------------------------- direction

  /** `_get_direction_attr`. */
  function DirectionAttr(d: TextDirection): (r: string)
    ensures d == RTL ==> r == " dir=\"rtl\" class=\"rtl\""
    ensures d == LTR ==> r == " dir=\"ltr\" class=\"ltr\""
    ensures r == "" <==> d == AUTO
  {
    match d
    case RTL => " dir=\"rtl\" class=\"rtl\""
    case LTR => " dir=\"ltr\" class=\"ltr\""
    case AUTO => ""
  }

  // ---------------------------------------------------------------- links

  function AnchorHtml(l: Link): string {
    "<a href=\"" + EscapeHtml(l.url) + "\">" + EscapeHtml(l.text) + "</a>"
  }

  /** One step of `_apply_links`: a positioned link replaces `text[start:end]` with its anchor. */
  function SpliceLink(text: string, l: Link): string {
    if Positioned(l) then Splice(text, l.startIndex.value, l.endIndex.value, AnchorHtml(l)) else text
  }

  /** The links applied from last to first. */
  function ApplyLinksSpec(text: string, links: seq<Link>): string
    decreases |links|
  {
    if |links| == 0 then text
    else ApplyLinksSpec(SpliceLink(text, links[|links| - 1]), links[..|links| - 1])
  }

  /** `_apply_links`: a loop over the links in reverse order. */
  method ApplyLinks(text: string, links: seq<Link>) returns (r: string)
    ensures r == ApplyLinksSpec(text, links)
  {
    r := text;
    var i := |links|;
    assert links[..i] == links;
    while i > 0
      invariant 0 <= i <= |links|
      invariant ApplyLinksSpec(text, links) == ApplyLinksSpec(r, links[..i])
    {
      assert links[..i][..i - 1] == links[..i - 1];
      r := SpliceLink(r, links[i - 1]);
      i := i - 1;
    }
  }

  /** Links without both offsets are skipped, so only positioned links change the text. */
  lemma {:induction false} UnpositionedLinksKeepText(text: string, links: seq<Link>)
    requires forall k :: 0 <= k < |links| ==> !Positioned(links[k])
    ensures ApplyLinksSpec(text, links) == text
  {
    if |links| > 0 {
      UnpositionedLinksKeepText(text, links[..|links| - 1]);
    }
  }

  /**
   * Two positioned links with in-range, ordered, non-overlapping spans are both spliced at
   * their own offsets: applying the later one first leaves the earlier offsets valid.
   */
  lemma TwoLinksSpliced(text: string, l1: Link, l2: Link)
    requires Positioned(l1) && Positioned(l2)
    requires 0 <= l1.startIndex.value <= l1.endIndex.value <= l2.startIndex.value <= l2.endIndex.value <= |text|
    ensures ApplyLinksSpec(text, [l1, l2]) ==
      text[..l1.startIndex.value] + AnchorHtml(l1) + text[l1.endIndex.value..l2.startIndex.value]
      + AnchorHtml(l2) + text[l2.endIndex.value..]
  {
    var s1, e1, s2, e2 := l1.startIndex.value, l1.endIndex.value, l2.startIndex.value, l2.endIndex.value;
    var a1, a2 := AnchorHtml(l1), AnchorHtml(l2);
    var t1 := SpliceLink(text, l2);
    assert t1 == Splice(text, s2, e2, a2);
    assert [l1, l2][..1] == [l1];
    assert ApplyLinksSpec(text, [l1, l2]) == ApplyLinksSpec(t1, [l1]);
    assert [l1][..0] == [];
    assert ApplyLinksSpec(t1, [l1]) == SpliceLink(t1, l1) == Splice(t1, s1, e1, a1);
    SpliceTwice(text, s1, e1, s2, e2, a1, a2);
  }

  // ---------------------------------------------------------------- blocks

  function HeadingHtml(b: Block): string
    requires b.HeadingBlock?
  {
    var text := ApplyLinksSpec(EscapeHtml(b.text), b.links);
    "<h" + IntToString(b.level) + DirectionAttr(b.direction) + ">" + text + "</h" + IntToString(b.level) + ">"
  }

  /** The class names of a paragraph's emphasis. */
  function EmphasisClasses(b: Block): (r: seq<string>)
    requires b.ParagraphBlock?
    ensures "bold" in r <==> b.isBold
    ensures "italic" in r <==> b.isItalic
  {
    (if b.isBold then ["bold"] else []) + (if b.isItalic then ["italic"] else [])
  }

  function ClassAttr(classes: seq<string>): string {
    if classes == [] then "" else " class=\"" + Join(classes, " ") + "\""
  }

  function ParagraphHtml(b: Block): string
    requires b.ParagraphBlock?
  {
    var text := ApplyLinksSpec(EscapeHtml(b.text), b.links);
    "<p" + DirectionAttr(b.direction) + ClassAttr(EmphasisClasses(b)) + ">" + text + "</p>"
  }

  /** The image source: the embedded data when embedding, else the path; None renders nothing. */
  function ImageSource(b: Block, embedImages: bool): (r: Option<string>)
    requires b.ImageBlock?
    ensures r.None? <==> !(embedImages && Truthy(b.imageData)) && !Truthy(b.imagePath)
    ensures embedImages && Truthy(b.imageData) ==> r == b.imageData
    ensures !(embedImages && Truthy(b.imageData)) && Truthy(b.imagePath) ==> r == b.imagePath
  {
    if embedImages && Truthy(b.imageData) then b.imageData
    else if Truthy(b.imagePath) then b.imagePath
    else None
  }

  /** Alt text falls back from the alt text to the caption to "Image". */
  function AltText(b: Block): (r: string)
    requires b.ImageBlock?
    ensures r != ""
    ensures Truthy(b.altText) ==> r == b.altText.value
    ensures !Truthy(b.altText) && Truthy(b.caption) ==> r == b.caption.value
    ensures !Truthy(b.altText) && !Truthy(b.caption) ==> r == "Image"
  {
    Or(b.altText, Or(b.caption, "Image"))
  }

  function ImgTag(src: string, alt: string): string {
    "<img src=\"" + src + "\" alt=\"" + alt + "\">"
  }

  function FigCaption(caption: string): string {
    "<figcaption class=\"image-caption\">" + caption + "</figcaption>"
  }

  /**
   * An image with a source renders as a figure: the `<img>` line with the source and the
   * escaped alt text, then a caption line exactly when there is a caption.
   */
  function ImageHtml(b: Block, embedImages: bool): (r: string)
    requires b.ImageBlock?
    ensures r == "" <==> ImageSource(b, embedImages).None?
    ensures ImageSource(b, embedImages).Some? ==>
      r == "<figure>" + "\n" + ImgTag(ImageSource(b, embedImages).value, EscapeHtml(AltText(b)))
        + (if Truthy(b.caption) then "\n" + FigCaption(EscapeHtml(b.caption.value)) else "")
        + "\n" + "</figure>"
  {
    match ImageSource(b, embedImages)
    case None => ""
    case Some(src) =>
      var img := ImgTag(src, EscapeHtml(AltText(b)));
      var lines := ["<figure>", img]
        + (if Truthy(b.caption) then [FigCaption(EscapeHtml(b.caption.value))] else [])
        + ["</figure>"];
      FigureJoin(img, if Truthy(b.caption) then Some(FigCaption(EscapeHtml(b.caption.value))) else None);
      assert "<figure>" != "";
      Join(lines, "\n")
  }

  lemma FigureJoin(img: string, cap: Option<string>)
    ensures var lines := ["<figure>", img] + (if cap.Some? then [cap.value] else []) + ["</figure>"];
      Join(lines, "\n")
        == "<figure>" + "\n" + img + (if cap.Some? then "\n" + cap.value else "") + "\n" + "</figure>"
  {
    var lines := ["<figure>", img] + (if cap.Some? then [cap.value] else []) + ["</figure>"];
    assert lines[1..][1..] == (if cap.Some? then [cap.value] else []) + ["</figure>"];
    if cap.Some? {
      assert lines == ["<figure>", img, cap.value, "</figure>"];
      assert Join(lines[2..], "\n") == cap.value + "\n" + "</figure>" by {
        assert lines[2..][1..] == ["</figure>"];
      }
      assert lines[1..][1..] == lines[2..];
    } else {
      assert lines == ["<figure>", img, "</figure>"];
      assert lines[1..][1..] == ["</figure>"];
      assert Join(lines[1..], "\n") == img + "\n" + "</figure>";
      assert "<figure>" + "\n" + img + "" == "<figure>" + "\n" + img;
    }
  }

  // ---------------------------------------------------------------- tables

  function CellTag(c: TableCell): string {
    if c.isHeader then "th" else "td"
  }

  /** The span attributes of a cell: each present only when its value exceeds 1. */
  function SpanAttrs(c: TableCell): (r: seq<string>)
    ensures |r| == (if c.colspan > 1 then 1 else 0) + (if c.rowspan > 1 then 1 else 0)
  {
    (if c.colspan > 1 then ["colspan=\"" + IntToString(c.colspan) + "\""] else [])
    + (if c.rowspan > 1 then ["rowspan=\"" + IntToString(c.rowspan) + "\""] else [])
  }

  /** A colspan attribute comes first and exists iff colspan > 1; a rowspan one comes last and exists iff rowspan > 1. */
  lemma SpanAttrsShape(c: TableCell)
    ensures c.colspan > 1 <==> |SpanAttrs(c)| > 0 && StartsWith(SpanAttrs(c)[0], "colspan=")
    ensures c.rowspan > 1 <==> |SpanAttrs(c)| > 0 && StartsWith(SpanAttrs(c)[|SpanAttrs(c)| - 1], "rowspan=")
  {
    var r := SpanAttrs(c);
    var col := "colspan=\"" + IntToString(c.colspan) + "\"";
    var row := "rowspan=\"" + IntToString(c.rowspan) + "\"";
    assert col[..8] == "colspan=" && col[0] == 'c';
    assert row[..8] == "rowspan=" && row[0] == 'r';
    if c.colspan > 1 && c.rowspan > 1 {
      assert r == [col, row];
    } else if c.colspan > 1 {
      assert r == [col];
    } else if c.rowspan > 1 {
      assert r == [row];
    }
  }

  function AttrString(attrs: seq<string>): string {
    if attrs == [] then "" else " " + Join(attrs, " ")
  }

  /** One cell's line. */
  function CellHtml(c: TableCell): string {
    "<" + CellTag(c) + AttrString(SpanAttrs(c)) + ">" + EscapeHtml(c.content) + "</" + CellTag(c) + ">"
  }

  /** A cell's line opens with `<th` for a header cell and with `<td` otherwise. */
  lemma CellHtmlTag(c: TableCell)
    ensures |CellHtml(c)| > 2 && CellHtml(c)[..3] == (if c.isHeader then "<th" else "<td")
  {
    var h := CellHtml(c);
    assert h[..3] == "<" + CellTag(c);
  }

  function RowLines(row: TableRow): seq<string> {
    ["<tr>"] + Map(row.cells, CellHtml) + ["</tr>"]
  }

  function CaptionLines(caption: Option<string>): seq<string> {
    if Truthy(caption) then ["<caption>" + EscapeHtml(caption.value) + "</caption>"] else []
  }

  function TableLines(b: Block): seq<string>
    requires b.TableBlock?
  {
    ["<table>"] + CaptionLines(b.caption) + FlatMap(b.rows, RowLines) + ["</table>"]
  }

  /** The inner loop of `_convert_table`: one row's lines. */
  method ConvertRow(row: TableRow) returns (lines: seq<string>)
    ensures lines == RowLines(row)
  {
    lines := ["<tr>"];
    for j := 0 to |row.cells|
      invariant lines == ["<tr>"] + Map(row.cells[..j], CellHtml)
    {
      MapSnoc(["<tr>"], row.cells, j, CellHtml);
      lines := lines + [CellHtml(row.cells[j])];
    }
    assert row.cells[..|row.cells|] == row.cells;
    lines := lines + ["</tr>"];
  }

  /** `_convert_table`: the caption, then each row's lines, between `<table>` and `</table>`. */
  method ConvertTable(b: Block) returns (r: string)
    requires b.TableBlock?
    ensures r == Join(TableLines(b), "\n")
  {
    var parts := ["<table>"] + CaptionLines(b.caption);
    var head := parts;
    for i := 0 to |b.rows|
      invariant parts == head + FlatMap(b.rows[..i], RowLines)
    {
      var lines := ConvertRow(b.rows[i]);
      FlatMapSnoc(head, b.rows, i, RowLines);
      parts := parts + lines;
    }
    assert b.rows[..|b.rows|] == b.rows;
    parts := parts + ["</table>"];
    r := Join(parts, "\n");
  }

  lemma CellLineIsNotRowTag(c: TableCell)
    ensures CellHtml(c) != "<tr>" && CellHtml(c) != "</tr>"
  {
    var h := CellHtml(c);
    CellHtmlTag(c);
    assert h[2] == 'h' || h[2] == 'd';
    assert h[1] == 't';
    assert "<tr>"[2] == 'r' && "</tr>"[1] == '/';
  }

  lemma {:induction false} CountRowTagsInCells(cells: seq<TableCell>)
    ensures Count(Map(cells, CellHtml), "<tr>") == 0
  {
    var m := Map(cells, CellHtml);
    forall x | x in m ensures x != "<tr>" {
      var k :| 0 <= k < |m| && m[k] == x;
      CellLineIsNotRowTag(cells[k]);
    }
  }

  lemma {:induction false} CountRowTags(rows: seq<TableRow>)
    ensures Count(FlatMap(rows, RowLines), "<tr>") == |rows|
  {
    if |rows| > 0 {
      CountRowTags(rows[1..]);
      var m := Map(rows[0].cells, CellHtml);
      CountRowTagsInCells(rows[0].cells);
      CountAppend(["<tr>"] + m, ["</tr>"], "<tr>");
      CountAppend(["<tr>"], m, "<tr>");
      CountAppend(RowLines(rows[0]), FlatMap(rows[1..], RowLines), "<tr>");
    }
  }

  /** A table renders exactly one `<tr>` line per row, between `<table>` and `</table>`. */
  lemma TableRowCount(b: Block)
    requires b.TableBlock?
    ensures Count(TableLines(b), "<tr>") == |b.rows|
    ensures TableLines(b)[0] == "<table>" && TableLines(b)[|TableLines(b)| - 1] == "</table>"
  {
    var cap := CaptionLines(b.caption);
    CountRowTags(b.rows);
    if Truthy(b.caption) {
      assert cap[0] != "<tr>" by {
        assert |cap[0]| > 4;
      }
    }
    assert Count(cap, "<tr>") == 0;
    CountAppend(["<table>"], cap, "<tr>");
    CountAppend(["<table>"] + cap, FlatMap(b.rows, RowLines), "<tr>");
    CountAppend(["<table>"] + cap + FlatMap(b.rows, RowLines), ["</table>"], "<tr>");
  }

  /** Each row's lines are `<tr>`, one line per cell in order, then `</tr>`. */
  lemma RowLinesShape(row: TableRow)
    ensures |RowLines(row)| == |row.cells| + 2
    ensures RowLines(row)[0] == "<tr>" && RowLines(row)[|row.cells| + 1] == "</tr>"
    ensures forall j :: 0 <= j < |row.cells| ==> RowLines(row)[j + 1] == CellHtml(row.cells[j])
  {
  }

  // ---------------------------------------------------------------- lists

  function ListTag(b: Block): string
    requires b.ListBlock?
  {
    if b.isOrdered then "ol" else "ul"
  }

  function ItemHtml(item: string): string {
    "<li>" + EscapeHtml(item) + "</li>"
  }

  function ListLines(b: Block): seq<string>
    requires b.ListBlock?
  {
    ["<" + ListTag(b) + DirectionAttr(b.direction) + ">"] + Map(b.items, ItemHtml) + ["</" + ListTag(b) + ">"]
  }

  /** `_convert_list`: a loop appending one `<li>` line per item. */
  method ConvertList(b: Block) returns (r: string)
    requires b.ListBlock?
    ensures r == Join(ListLines(b), "\n")
  {
    var tag := ListTag(b);
    var parts := ["<" + tag + DirectionAttr(b.direction) + ">"];
    for i := 0 to |b.items|
      invariant parts == ["<" + tag + DirectionAttr(b.direction) + ">"] + Map(b.items[..i], ItemHtml)
    {
      MapSnoc(["<" + tag + DirectionAttr(b.direction) + ">"], b.items, i, ItemHtml);
      parts := parts + [ItemHtml(b.items[i])];
    }
    assert b.items[..|b.items|] == b.items;
    parts := parts + ["</" + tag + ">"];
    r := Join(parts, "\n");
  }

  /**
   * A list opens with `<ol` exactly when it is ordered, and holds one `<li>` line per item,
   * in order, from which the item text is recovered by unescaping.
   */
  lemma ListShape(b: Block)
    requires b.ListBlock?
    ensures |ListLines(b)| == |b.items| + 2
    ensures StartsWith(ListLines(b)[0], "<ol") <==> b.isOrdered
    ensures forall k :: 0 <= k < |b.items| ==>
      ListLines(b)[k + 1] == "<li>" + EscapeHtml(b.items[k]) + "</li>"
      && UnescapeHtml(EscapeHtml(b.items[k])) == b.items[k]
  {
    var first := ListLines(b)[0];
    assert first[..3] == "<" + ListTag(b);
    assert ("<" + ListTag(b))[1] == if b.isOrdered then 'o' else 'u';
    forall k | 0 <= k < |b.items|
      ensures UnescapeHtml(EscapeHtml(b.items[k])) == b.items[k]
    {
      UnescapeEscapeHtml(b.items[k]);
    }
  }

  // ---------------------------------------------------------------- dispatch

  function LinkHtml(b: Block): string
    requires b.LinkBlock?
  {
    "<p><a href=\"" + EscapeHtml(b.url) + "\">" + EscapeHtml(b.text) + "</a></p>"
  }

  /** `_convert_block`: each handled kind renders by its own rule; a positioned text block renders "". */
  function BlockHtml(b: Block, embedImages: bool): (r: string)
    ensures b.PositionedTextBlock? ==> r == ""
    ensures b.ImageBlock? ==> (r == "" <==> ImageSource(b, embedImages).None?)
  {
    match b
    case HeadingBlock(_, _, _, _, _) => HeadingHtml(b)
    case ParagraphBlock(_, _, _, _, _, _) => ParagraphHtml(b)
    case ImageBlock(_, _, _, _, _, _, _, _, _, _) => ImageHtml(b, embedImages)
    case TableBlock(_, _, _, _, _, _, _) => Join(TableLines(b), "\n")
    case ListBlock(_, _, _, _, _) => Join(ListLines(b), "\n")
    case LinkBlock(_, _, _, _) => LinkHtml(b)
    case PositionedTextBlock(_, _, _, _, _, _, _) => ""
  }

  /** Every rendered heading, paragraph and link block opens with its own tag. */
  lemma BlockHtmlTags(b: Block, embedImages: bool)
    ensures b.HeadingBlock? ==> StartsWith(BlockHtml(b, embedImages), "<h")
    ensures b.ParagraphBlock? ==> StartsWith(BlockHtml(b, embedImages), "<p")
    ensures b.LinkBlock? ==> StartsWith(BlockHtml(b, embedImages), "<p><a href=\"")
  {
    var r := BlockHtml(b, embedImages);
    if b.HeadingBlock? {
      assert r[..2] == "<h";
    } else if b.ParagraphBlock? {
      assert r[..2] == "<p";
    } else if b.LinkBlock? {
      assert r[..12] == "<p><a href=\"";
    }
  }

  // ---------------------------------------------------------------- pages

  /** The page header text: the page title, or "Page N". */
  function PageTitle(p: Page): string {
    Or(p.title, "Page " + IntToString(p.pageNumber))
  }

  function PageHeaderLines(p: Page, multiPage: bool): (r: seq<string>)
    ensures |r| == (if multiPage then 1 else 0)
  {
    if multiPage then ["<div class=\"page-header\">" + EscapeHtml(PageTitle(p)) + "</div>"] else []
  }

  function PageOpen(p: Page): string {
    "<div class=\"page\" id=\"page-" + IntToString(p.pageNumber) + "\"" + DirectionAttr(p.direction) + ">"
  }

  function PageLines(p: Page, multiPage: bool, embedImages: bool): seq<string> {
    [PageOpen(p)] + PageHeaderLines(p, multiPage) + Map(p.blocks, (b: Block) => BlockHtml(b, embedImages)) + ["</div>"]
  }

  /** `_convert_page`: the page's lines, one per block, built in a loop. */
  method ConvertPage(p: Page, multiPage: bool, embedImages: bool) returns (r: string)
    ensures r == Join(PageLines(p, multiPage, embedImages), "\n")
  {
    var render := (b: Block) => BlockHtml(b, embedImages);
    var parts := [PageOpen(p)] + PageHeaderLines(p, multiPage);
    var head := parts;
    for i := 0 to |p.blocks|
      invariant parts == head + Map(p.blocks[..i], render)
    {
      MapSnoc(head, p.blocks, i, render);
      parts := parts + [BlockHtml(p.blocks[i], embedImages)];
    }
    assert p.blocks[..|p.blocks|] == p.blocks;
    parts := parts + ["</div>"];
    r := Join(parts, "\n");
  }

  /**
   * A page has one line per block between its opening and closing div, and a header line
   * exactly when the document has several pages.
   */
  lemma PageShape(p: Page, multiPage: bool, embedImages: bool)
    ensures |PageLines(p, multiPage, embedImages)| == |p.blocks| + 2 + (if multiPage then 1 else 0)
    ensures multiPage ==> (PageLines(p, multiPage, embedImages)[1]
      == "<div class=\"page-header\">" + EscapeHtml(Or(p.title, "Page " + IntToString(p.pageNumber))) + "</div>")
  {
  }

  // ---------------------------------------------------------------- document

  function MetaLines(m: Metadata): seq<string> {
    (if Truthy(m.author) then ["<meta name=\"author\" content=\"" + EscapeHtml(m.author.value) + "\">"] else [])
    + (if Truthy(m.subject) then ["<meta name=\"description\" content=\"" + EscapeHtml(m.subject.value) + "\">"] else [])
    + (if m.keywords != [] then ["<meta name=\"keywords\" content=\"" + EscapeHtml(Join(m.keywords, ", ")) + "\">"] else [])
  }

  function HeadLines(d: Document, opts: HtmlOptions): seq<string> {
    ["<!DOCTYPE html>", "<html lang=\"ar\" dir=\"auto\">", "<head>", "<meta charset=\"UTF-8\">",
     "<meta name=\"viewport\" content=\"width=device-width, initial-scale=1.0\">",
     "<title>" + EscapeHtml(Or(d.title, "Document")) + "</title>"]
    + MetaLines(d.metadata)
    + (if opts.includeStyles then [Styles] else [])
    + ["</head>", "<body" + DirectionAttr(d.direction) + ">", "<div class=\"document-container\">"]
    + (if Truthy(d.title) then ["<h1 class=\"document-title\">" + EscapeHtml(d.title.value) + "</h1>"] else [])
  }

  function PageHtml(p: Page, multiPage: bool, embedImages: bool): string {
    Join(PageLines(p, multiPage, embedImages), "\n")
  }

  function TailLines(): seq<string> {
    ["</div>", "</body>", "</html>"]
  }

  /** The rendering of each page of a document with `pageCount` pages. */
  function PageRenderer(multiPage: bool, embedImages: bool): Page -> string {
    (p: Page) => PageHtml(p, multiPage, embedImages)
  }

  /** The whole HTML text: head, one entry per page, and the closing tags, joined with newlines. */
  function ConvertSpec(d: Document, opts: HtmlOptions): string {
    Join(HeadLines(d, opts) + Map(d.pages, PageRenderer(|d.pages| > 1, opts.embedImages)) + TailLines(), "\n")
  }

  /** The page loop of `convert`: appends each page's HTML to the lines built so far. */
  method AppendPages(head: seq<string>, pages: seq<Page>, multiPage: bool, embedImages: bool)
    returns (parts: seq<string>)
    ensures parts == head + Map(pages, PageRenderer(multiPage, embedImages))
  {
    var render := PageRenderer(multiPage, embedImages);
    parts := head;
    for i := 0 to |pages|
      invariant parts == head + Map(pages[..i], render)
    {
      MapSnoc(head, pages, i, render);
      var page := ConvertPage(pages[i], multiPage, embedImages);
      parts := parts + [page];
    }
    assert pages[..|pages|] == pages;
  }

  /** `convert`: the head lines, each page in order, then the closing tags. */
  method Convert(d: Document, opts: HtmlOptions) returns (r: string)
    ensures r == ConvertSpec(d, opts)
  {
    var parts := AppendPages(HeadLines(d, opts), d.pages, |d.pages| > 1, opts.embedImages);
    parts := parts + TailLines();
    r := Join(parts, "\n");
  }

  /** The output is a complete HTML page: it opens with the doctype and ends with `</html>`. */
  lemma ConvertFraming(d: Document, opts: HtmlOptions)
    ensures StartsWith(ConvertSpec(d, opts), "<!DOCTYPE html>")
    ensures EndsWith(ConvertSpec(d, opts), "</html>")
  {
    var all := HeadLines(d, opts) + Map(d.pages, PageRenderer(|d.pages| > 1, opts.embedImages)) + TailLines();
    assert all[0] == "<!DOCTYPE html>";
    assert all[|all| - 1] == "</html>";
    JoinEnds(all, "\n");
  }
}
