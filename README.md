# Tran-API document converter, modelled in Dafny

Tran-API reads PDF, DOCX, PPTX, XLSX, plain-text, Markdown and image files. It turns each one
into a single unified document model, a tree of Document, Page and Block records. It renders
that document as HTML or Markdown, and it hands the document out as JSON or through simple queries.
This project models the repository's own rules in Dafny and proves properties of them. The rules
covered are:

- the text utilities (direction detection, cleaning, paragraph splitting, heading and URL detection);
- the document model and its queries;
- the HTML and Markdown converters;
- the six extractors and the OCR extractor, working over abstract native trees;
- the `DocumentAgent` that ties them together.

The native parsers (PyMuPDF, python-docx, python-pptx, openpyxl, Tesseract and OpenCV) are not
modelled. Their output is taken as input values: abstract block, paragraph, shape, cell and word
records. Library functions the code relies on are uninterpreted constants:

- Unicode NFKC normalisation and the bidirectional character class;
- Arabic reshaping with bidi display;
- Base64;
- JSON encoding;
- the DOCX writer.

One module per file:

| file | module | models |
|---|---|---|
| wrappers.dfy | Wrappers | `Option` and `Result` |
| strings.dfy | Strings | the `str` methods the code uses: `lower`, `strip`, `split`, `join`, `replace`, slicing |
| seqs.dfy | Seqs | list comprehensions and accumulation loops as map, filter, flat-map and collect |
| paths.dfy | Paths | `pathlib.Path` name, suffix and stem |
| errors.dfy | Errors | the exceptions raised, as values |
| document.dfy | DocumentModel | `src/schemas/document.py` |
| text_utils.dfy | TextUtils | `src/utils/text_utils.py` |
| image_utils.dfy | ImageUtils | `src/utils/image_utils.py` |
| base_extractor.dfy | BaseExtractor | `src/extractors/base_extractor.py` |
| base_converter.dfy | BaseConverter | `src/converters/base_converter.py` |
| html_converter.dfy | HtmlConverter | `src/converters/html_converter.py` |
| markdown_converter.dfy | MarkdownConverter | `src/converters/markdown_converter.py` |
| text_extractor.dfy | TextExtractor | `src/extractors/text_extractor.py` |
| markdown_extractor.dfy | MarkdownExtractor | `src/extractors/markdown_extractor.py` |
| tables.dfy | Tables | the header-table construction shared by the PDF, DOCX and PPTX extractors |
| pdf_extractor.dfy | PdfExtractor | `src/extractors/pdf_extractor.py` |
| docx_extractor.dfy | DocxExtractor | `src/extractors/docx_extractor.py` |
| pptx_extractor.dfy | PptxExtractor | `src/extractors/pptx_extractor.py` |
| xlsx_extractor.dfy | XlsxExtractor | `src/extractors/xlsx_extractor.py` |
| ocr_extractor.dfy | OcrExtractor | `src/extractors/ocr_extractor.py` |
| agent.dfy | Agent | `src/agent.py` |

Code that builds its result in a loop is modelled as a method with that loop. Each such method
is proved equal to a specification function, and the properties are proved about that function.
The agent's state, the loaded document and its source path, lives in the fields of the class
`Agent.DocumentAgent`.

## Model

| member | source | states |
|---|---|---|
| TextUtils.DetectTextDirection | Tran-API-1/src/utils/text_utils.py:33-50 | the loop counts right-to-left (R, AL, AN) and left-to-right (L) characters; the result is "rtl" exactly when the first count is strictly larger, so ties and empty text give "ltr" |
| TextUtils.DirectionOfConcat | Tran-API-1/src/utils/text_utils.py:38-50 | two texts with the same direction keep it when concatenated |
| TextUtils.NoRtlCharsIsLtr | Tran-API-1/src/utils/text_utils.py:41-50 | a text without any R, AL or AN character is "ltr" |
| TextUtils.IsArabicText | Tran-API-1/src/utils/text_utils.py:10-15 | true exactly when some character lies in one of the five Arabic ranges |
| TextUtils.FixArabicText | Tran-API-1/src/utils/text_utils.py:53-66 | non-Arabic text is returned unchanged; a changed result is the reshaped display form of Arabic text |
| TextUtils.IsHebrewText | Tran-API-1/src/utils/text_utils.py:18-23 | true exactly when some character lies in one of the two Hebrew ranges |
| TextUtils.IsRtlText | Tran-API-1/src/utils/text_utils.py:26-30 | false on empty text; otherwise true exactly when some character is Arabic or Hebrew |
| TextUtils.RemoveDiacritics | Tran-API-1/src/utils/text_utils.py:78-79 | the result has no diacritic in U+064B..U+0652 or U+0670, keeps only input characters, and leaves a text without diacritics unchanged |
| TextUtils.NormalizeArabic | Tran-API-1/src/utils/text_utils.py:69-85 | the result is no longer than the input and holds no diacritic and none of U+0622, U+0623, U+0625 |
| TextUtils.RemoveDiacriticsIsFilter | Tran-API-1/src/utils/text_utils.py:78-79 | removing diacritics keeps exactly the non-diacritic characters, in order |
| TextUtils.FoldAlefsPointwise | Tran-API-1/src/utils/text_utils.py:81-83 | the three `replace` calls together map U+0622, U+0623 and U+0625 to U+0627 and keep every other character in place |
| TextUtils.NormalizeArabicSpec | Tran-API-1/src/utils/text_utils.py:69-85 | the normal form is the text's non-diacritic characters in order, each alef variant folded to U+0627 |
| TextUtils.NormalizeArabicIdempotent | Tran-API-1/src/utils/text_utils.py:69-85 | normalising twice gives the same text as normalising once |
| TextUtils.CollapseLines | Tran-API-1/src/utils/text_utils.py:116-120 | each line has its whitespace runs collapsed to one space, and the line count is kept |
| TextUtils.CleanText | Tran-API-1/src/utils/text_utils.py:108-127 | the per-line loop computes the cleaning function: NFKC, collapse each line or the whole text, strip |
| TextUtils.CleanTextPreservingNewlinesShape | Tran-API-1/src/utils/text_utils.py:115-125 | cleaned text that keeps newlines has no whitespace at either end, and every inner whitespace character is a newline or a single space between visible characters |
| TextUtils.CleanTextSingleLine | Tran-API-1/src/utils/text_utils.py:122-125 | cleaned text that drops newlines has no newline and no two consecutive spaces |
| TextUtils.BlankLineMatchEnd | Tran-API-1/src/utils/text_utils.py:181 | a match of the separator `\n\s*\n` is all whitespace, starts and ends with a newline, and always exists where two newlines are adjacent |
| TextUtils.SplitIntoParagraphs | Tran-API-1/src/utils/text_utils.py:176-184 | empty text gives no paragraph; every paragraph is non-empty and equal to its own strip |
| TextUtils.RawSplitOfJoin | Tran-API-1/src/utils/text_utils.py:181 | newline-free pieces joined by blank lines split back into exactly those pieces when each piece after the first holds a non-space character |
| TextUtils.SplitIntoParagraphsOfJoin | Tran-API-1/src/utils/text_utils.py:176-184 | paragraphs joined by blank lines come back stripped, blank ones dropped, in order |
| TextUtils.SingleLineOneParagraph | Tran-API-1/src/utils/text_utils.py:176-184 | a text without newlines is one paragraph, its strip, or none when it is all whitespace |
| TextUtils.CountWordsOfJoin | Tran-API-1/src/utils/text_utils.py:187-193 | words joined by single spaces are counted one by one |
| TextUtils.CountWordsOfCollapse | Tran-API-1/src/utils/text_utils.py:187-193 | collapsing whitespace never changes the word count |
| TextUtils.TruncateText | Tran-API-1/src/utils/text_utils.py:196-201 | empty or short enough text is returned unchanged; longer text ends with the suffix and, when the limit is at least the suffix length, has exactly the limit's length and keeps the input's prefix |
| TextUtils.IsHeading | Tran-API-1/src/utils/text_utils.py:215-231 | true exactly for non-empty text whose strip is a single line within the length bounds and does not end in '.' unless it ends in "..." (both directions) |
| TextUtils.IsHeadingIgnoresSurroundingSpace | Tran-API-1/src/utils/text_utils.py:220 | surrounding whitespace never changes the heading test |
| TextUtils.UrlPrefixLength | Tran-API-1/src/utils/text_utils.py:161-164 | the prefix length is 8 exactly when "https://" occurs, 7 only for "http://", 4 only for "www.", and 0 exactly when none of them occurs |
| TextUtils.UrlMatchEnd | Tran-API-1/src/utils/text_utils.py:161-164 | a match exists exactly when a prefix occurs and one URL body character follows it; it then runs to the end of the non-space run |
| TextUtils.ExtractUrlsFrom | Tran-API-1/src/utils/text_utils.py:167-171 | the `finditer` scan yields matches inside the text from its start position on, in order and without overlap |
| TextUtils.ExtractUrlsFromSound | Tran-API-1/src/utils/text_utils.py:166-171 | every match the scan reports is a pattern match whose url is the matched text, behind "https://" when it does not start with "http" |
| TextUtils.ExtractUrls | Tran-API-1/src/utils/text_utils.py:156-173 | empty text gives no match; the matches are in order and do not overlap |
| TextUtils.ExtractUrlsSound | Tran-API-1/src/utils/text_utils.py:156-173 | every reported match is a pattern match whose url is the matched text, with "https://" put in front when it does not start with "http"; the matches are in order and do not overlap |
| TextUtils.ExtractUrlsFromComplete | Tran-API-1/src/utils/text_utils.py:166-171 | every position at or after the scan's start where the pattern matches and no earlier match covers it starts a reported match |
| TextUtils.ExtractUrlsComplete | Tran-API-1/src/utils/text_utils.py:156-173 | every match position not covered by an earlier match is reported |
| TextUtils.NoUrlPrefixNoUrls | Tran-API-1/src/utils/text_utils.py:156-173 | a text containing none of "http://", "https://" and "www." has no URL |
| TextUtils.SplitOnNewlineCount | Tran-API-1/src/utils/text_utils.py:263 | splitting on newlines gives one more piece than there are newlines |
| TextUtils.GetTextMetrics | Tran-API-1/src/utils/text_utils.py:234-266 | `is_rtl` holds exactly when the direction is "rtl"; the direction is the detected one; the Arabic count is the number of characters in U+0600..U+06FF, U+0750..U+077F, U+08A0..U+08FF and the English count the number of ASCII letters; the character, word and line counts agree with the text, and an empty text has zero lines and words |
| TextUtils.ArabicEnglishDisjoint | Tran-API-1/src/utils/text_utils.py:250-254 | the Arabic and English character counts together never exceed the text's length |
| ImageUtils.GetMimeType | Tran-API-1/src/utils/image_utils.py:79-93 | after lower-casing, png, jpg/jpeg, gif, bmp, webp, tif/tiff and svg give image/png, image/jpeg, image/gif, image/bmp, image/webp, image/tiff and image/svg+xml; an unknown format gives image/png |
| ImageUtils.GetMimeTypeIgnoresCase | Tran-API-1/src/utils/image_utils.py:81 | the lookup ignores case |
| ImageUtils.ImageToBase64 | Tran-API-1/src/utils/image_utils.py:11-18 | empty data gives ""; otherwise the result is exactly "data:" + MIME type + ";base64," + the encoding |
| ImageUtils.Base64ToImage | Tran-API-1/src/utils/image_utils.py:21-32 | "" gives None; a text without a comma is decoded whole |
| ImageUtils.Base64ToImageSecondSegment | Tran-API-1/src/utils/image_utils.py:25-29 | with a comma in the input, only the segment between the first and second comma (or after the only comma) is decoded |
| ImageUtils.ImageRoundTrip | Tran-API-1/src/utils/image_utils.py:11-32 | decoding the data URI made from non-empty bytes gives the bytes back, when the codec round-trips on them |
| ImageUtils.GenerateImageId | Tran-API-1/src/utils/image_utils.py:96-98 | an id is "img_" followed by 8 lower-case hex digits |
| Paths.LastIndexOf | Tran-API-1/src/extractors/base_extractor.py:45 | `rfind`: the index of the last occurrence, or None when there is none |
| Paths.Name | Tran-API-1/src/extractors/base_extractor.py:45 | `Path.name` is the last component once empty and "." components are dropped; it has no '/' and is never "." |
| Paths.NameOfComponent | Tran-API-1/src/extractors/base_extractor.py:45 | a path without '/' other than "." is its own name |
| Paths.NameAfterSlash | Tran-API-1/src/extractors/base_extractor.py:45 | the name is the component after the last '/' when that is neither empty nor "." |
| Paths.NameIgnoresTrailingSlash | Tran-API-1/src/extractors/base_extractor.py:45 | a trailing '/' or "/." never changes the name, so "report.pdf/" is named "report.pdf" |
| Paths.Suffix | Tran-API-1/src/extractors/base_extractor.py:46 | `Path.suffix` is empty or a '.' followed by at least one character and no further '.', and it ends the name |
| Paths.Stem | Tran-API-1/src/converters/base_converter.py:48 | `Path.stem` followed by the suffix is the name |
| Paths.SuffixOfNameDotExt | Tran-API-1/src/extractors/base_extractor.py:46 | a name made of a stem, a '.' and an extension without dots splits back into the two |
| Paths.SuffixIgnoresTrailingSlash | Tran-API-1/src/extractors/base_extractor.py:46 | a trailing '/' or "/." changes neither the suffix nor the stem, so "report.pdf/" has suffix ".pdf" |
| BaseExtractor.ValidateFile | Tran-API-1/src/extractors/base_extractor.py:19-30 | a missing file fails with FileNotFound before any extension check; an empty extension list accepts everything; otherwise the path is accepted exactly when its lower-cased suffix is supported, and the error names the supported list |
| BaseExtractor.CanHandleValidates | Tran-API-1/src/extractors/base_extractor.py:50-54 | a path `can_handle` accepts passes validation whenever the file exists |
| BaseExtractor.LowerSuffixShape | Tran-API-1/src/extractors/base_extractor.py:25 | the lower-cased suffix is empty exactly when the suffix is, and is otherwise a '.' followed by no other '.' |
| BaseExtractor.SourceFormat | Tran-API-1/src/extractors/base_extractor.py:46 | the source format is the lower-cased suffix without its leading '.' |
| BaseExtractor.CreateBaseMetadata | Tran-API-1/src/extractors/base_extractor.py:37-48 | the base metadata holds the file name, the source format and the modification time, and no title, keywords or page count |
| BaseExtractor.ParseKeywords | Tran-API-1/src/extractors/pdf_extractor.py:88-94 | no or empty keywords give []; every keyword is non-empty, stripped and comma-free |
| BaseExtractor.ParseKeywordsOfJoin | Tran-API-1/src/extractors/docx_extractor.py:81-87 | non-empty, stripped, comma-free keywords survive a round trip through one comma-joined string |
| BaseExtractor.ParseKeywordsSpec | Tran-API-1/src/extractors/pdf_extractor.py:88-94 | for any non-empty keyword string, the keywords are its comma-separated pieces, each stripped, with the empty ones dropped, in order |
| BaseConverter.NameSource | Tran-API-1/src/converters/base_converter.py:43-50 | the name comes from the base name, else the title, else the stem of the source file name, else "document" |
| BaseConverter.KeepFilenameCharsIsFilter | Tran-API-1/src/converters/base_converter.py:52 | the character filter keeps exactly the alphanumerics, spaces, '-' and '_', in order |
| BaseConverter.ReplaceSpacePointwise | Tran-API-1/src/converters/base_converter.py:53 | the replacement turns each space into '_' and keeps every other character in place |
| BaseConverter.SanitizeSpec | Tran-API-1/src/converters/base_converter.py:52-53 | the sanitised name is the stripped filtered name with every space turned into '_' |
| BaseConverter.SanitizeChars | Tran-API-1/src/converters/base_converter.py:52-53 | a sanitised name holds only letters, digits, '-' and '_' |
| BaseConverter.GetOutputFilename | Tran-API-1/src/converters/base_converter.py:41-55 | the file name is the sanitised name source followed by the converter's extension, and everything before the extension is a letter, a digit, '-' or '_' |
| BaseConverter.SanitizeIgnoresSurroundingSpaces | Tran-API-1/src/converters/base_converter.py:52-53 | spaces around the name are stripped before spaces become '_', so they never turn into leading or trailing underscores |
| DocumentModel.PerPageIsFlat | Tran-API-1/src/schemas/document.py:222-233 | the nested page and block loops visit the blocks of the flattened block list, in order |
| DocumentModel.GetAllImagesSpec | Tran-API-1/src/schemas/document.py:250-257 | `get_all_images` returns exactly the image blocks, in page-then-block order |
| DocumentModel.GetAllTablesSpec | Tran-API-1/src/schemas/document.py:259-266 | `get_all_tables` returns exactly the table blocks, in page-then-block order |
| DocumentModel.GetAllLinksSpec | Tran-API-1/src/schemas/document.py:235-248 | `get_all_links` concatenates each block's links in order: the `links` of headings, paragraphs and lists, one offset-less link per link block, and the cell links of tables |
| DocumentModel.GetAllTextSpec | Tran-API-1/src/schemas/document.py:220-233 | the texts `get_all_text` joins are the blocks' texts in order; image blocks contribute nothing |
| DocumentModel.AddPage | Tran-API-1/src/schemas/document.py:268-270 | the page count grows by one, the new page is last, earlier pages and every other field are unchanged |
| DocumentModel.AddPageValid | Tran-API-1/src/schemas/document.py:268-270 | adding a valid page to a valid document keeps it valid |
| DocumentModel.AddPageQueries | Tran-API-1/src/schemas/document.py:220-270 | after `add_page`, each query returns its earlier result followed by the new page's share |
| DocumentModel.GetPage | Tran-API-1/src/schemas/document.py:272-277 | `get_page` returns the first page carrying the number, and None exactly when no page carries it |
| DocumentModel.AddPageGetPage | Tran-API-1/src/schemas/document.py:268-277 | adding a page never changes which page an existing number finds |
| DocumentModel.TotalBlocks | Tran-API-1/src/agent.py:304 | the summed block count is the number of blocks over all pages |
| HtmlConverter.ReplaceSpecialsChar | Tran-API-1/src/converters/html_converter.py:395-400 | on one character the chain of five replacements gives that character's escape |
| HtmlConverter.EscapeHtmlIsPointwise | Tran-API-1/src/converters/html_converter.py:391-400 | because `&` is replaced first, the chained replacements escape each character independently |
| HtmlConverter.EscapeHtmlNoRawSpecials | Tran-API-1/src/converters/html_converter.py:391-400 | escaped text holds no raw `<`, `>`, `"` or `'` |
| HtmlConverter.EscapedAmpersands | Tran-API-1/src/converters/html_converter.py:395-400 | every `&` of escaped text begins one of the five entities |
| HtmlConverter.UnescapeEscapeHtml | Tran-API-1/src/converters/html_converter.py:391-400 | escaping loses nothing: reading the five entities back gives the original text |
| HtmlConverter.DirectionAttr | Tran-API-1/src/converters/html_converter.py:250-256 | RTL gives ` dir="rtl" class="rtl"`, LTR gives ` dir="ltr" class="ltr"`, and the attribute is empty exactly for AUTO |
| HtmlConverter.ApplyLinks | Tran-API-1/src/converters/html_converter.py:381-389 | the loop over the reversed links computes the splicing function |
| HtmlConverter.UnpositionedLinksKeepText | Tran-API-1/src/converters/html_converter.py:383-384 | links missing either offset are skipped, so they leave the text unchanged |
| HtmlConverter.TwoLinksSpliced | Tran-API-1/src/converters/html_converter.py:383-388 | two ordered, non-overlapping, in-range links are both spliced at their own offsets, because the later one is applied first |
| HtmlConverter.EmphasisClasses | Tran-API-1/src/converters/html_converter.py:310-316 | the class list holds "bold" exactly for bold paragraphs and "italic" exactly for italic ones |
| HtmlConverter.ImageSource | Tran-API-1/src/converters/html_converter.py:324-329 | the source is the embedded data when embedding and present, else the path when present; there is none exactly when neither applies |
| HtmlConverter.AltText | Tran-API-1/src/converters/html_converter.py:331 | the alt text falls back from alt_text to caption to "Image", and is never empty |
| HtmlConverter.ImageHtml | Tran-API-1/src/converters/html_converter.py:320-339 | an image renders "" exactly when it has no source; otherwise a figure holding the `<img>` line with the source and escaped alt text, and a caption line exactly when there is a caption |
| HtmlConverter.FigureJoin | Tran-API-1/src/converters/html_converter.py:322-339 | joining the figure's parts with newlines gives the opening tag, the image line, the optional caption line and the closing tag |
| HtmlConverter.SpanAttrs | Tran-API-1/src/converters/html_converter.py:352-356 | a cell has one span attribute for each of colspan and rowspan that exceeds 1 |
| HtmlConverter.SpanAttrsShape | Tran-API-1/src/converters/html_converter.py:352-357 | a colspan attribute comes first and exists exactly when colspan > 1; a rowspan attribute comes last and exists exactly when rowspan > 1 |
| HtmlConverter.CellHtmlTag | Tran-API-1/src/converters/html_converter.py:351-358 | a cell's line opens with `<th` for a header cell and with `<td` otherwise |
| HtmlConverter.ConvertRow | Tran-API-1/src/converters/html_converter.py:349-359 | the inner cell loop computes the row's lines |
| HtmlConverter.ConvertTable | Tran-API-1/src/converters/html_converter.py:341-363 | the row loop computes the table's lines joined by newlines |
| HtmlConverter.TableRowCount | Tran-API-1/src/converters/html_converter.py:341-363 | a table renders exactly one `<tr>` line per row, between `<table>` and `</table>` |
| HtmlConverter.RowLinesShape | Tran-API-1/src/converters/html_converter.py:349-359 | a row's lines are `<tr>`, one line per cell in order, then `</tr>` |
| HtmlConverter.ConvertList | Tran-API-1/src/converters/html_converter.py:365-375 | the item loop computes the list's lines joined by newlines |
| HtmlConverter.ListShape | Tran-API-1/src/converters/html_converter.py:365-375 | a list opens with `<ol` exactly when it is ordered and holds one `<li>` line per item, in order, from which the item is recovered |
| HtmlConverter.BlockHtml | Tran-API-1/src/converters/html_converter.py:276-290 | a positioned text block renders "" and never fails; an image renders "" exactly when it has no source |
| HtmlConverter.BlockHtmlTags | Tran-API-1/src/converters/html_converter.py:292-318 | rendered headings, paragraphs and link blocks open with their own tags |
| HtmlConverter.PageHeaderLines | Tran-API-1/src/converters/html_converter.py:265-267 | a page has a header line exactly when the document has several pages |
| HtmlConverter.ConvertPage | Tran-API-1/src/converters/html_converter.py:258-274 | the block loop computes the page's lines joined by newlines |
| HtmlConverter.PageShape | Tran-API-1/src/converters/html_converter.py:258-274 | a page has one line per block between its opening and closing div; with several pages its header shows the page title or "Page N" |
| HtmlConverter.AppendPages | Tran-API-1/src/converters/html_converter.py:64-65 | the page loop appends each page's HTML, in order |
| HtmlConverter.Convert | Tran-API-1/src/converters/html_converter.py:30-71 | `convert` computes the head lines, one entry per page and the closing tags, joined by newlines |
| HtmlConverter.ConvertFraming | Tran-API-1/src/converters/html_converter.py:34-71 | the output opens with the doctype and ends with `</html>` |
| MarkdownConverter.EscapeYamlIsPointwise | Tran-API-1/src/converters/markdown_converter.py:231-235 | the two chained replacements escape each character independently |
| MarkdownConverter.EscapeYamlSafe | Tran-API-1/src/converters/markdown_converter.py:231-235 | escaped YAML text holds no newline, and every `"` in it is preceded by a backslash |
| MarkdownConverter.FrontmatterShape | Tran-API-1/src/converters/markdown_converter.py:50-78 | the frontmatter is "" exactly when no metadata field is set and the direction is not RTL; otherwise it is fenced by `---` lines |
| MarkdownConverter.FieldsPresent | Tran-API-1/src/converters/markdown_converter.py:55-70 | there are no field lines exactly when no field is set and the direction is not RTL |
| MarkdownConverter.ApplyLinks | Tran-API-1/src/converters/markdown_converter.py:219-229 | the loop over the reversed links computes the splicing function |
| MarkdownConverter.UnpositionedLinkMd | Tran-API-1/src/converters/markdown_converter.py:227-228 | an unpositioned link wraps the first occurrence of its text as `[text](url)`, and leaves text without an occurrence unchanged |
| MarkdownConverter.TwoLinksSpliced | Tran-API-1/src/converters/markdown_converter.py:221-226 | two ordered, non-overlapping, in-range links both land at their own offsets |
| MarkdownConverter.HeadingMdShape | Tran-API-1/src/converters/markdown_converter.py:119-127 | a heading of level 1..6 is exactly `level` hashes, a space and its linked text |
| MarkdownConverter.Emphasis | Tran-API-1/src/converters/markdown_converter.py:136-141 | the marker is two stars for bold plus one for italic, and holds nothing but stars |
| MarkdownConverter.ParagraphMdShape | Tran-API-1/src/converters/markdown_converter.py:129-146 | a paragraph is its linked text between two equal markers, wrapped in an RTL div exactly when its direction is RTL |
| MarkdownConverter.ImageSourceMd | Tran-API-1/src/converters/markdown_converter.py:152-157 | the source is the embedded data when embedding and present, else the path, else `image_<id>` |
| MarkdownConverter.ImageMd | Tran-API-1/src/converters/markdown_converter.py:148-164 | an image opens with `![alt](src)` using the alt fallback chain, and a caption adds a final italic line |
| MarkdownConverter.RowCells | Tran-API-1/src/converters/markdown_converter.py:186-192 | a row is padded with "" (or cut) to exactly `m` cells, keeping its own cells in order |
| MarkdownConverter.PadRow | Tran-API-1/src/converters/markdown_converter.py:186-192 | the padding loop computes the padded row |
| MarkdownConverter.DashCell | Tran-API-1/src/converters/markdown_converter.py:198 | a separator cell is all dashes, as long as its header cell and at least three long |
| MarkdownConverter.RowsLines | Tran-API-1/src/converters/markdown_converter.py:185-199 | the rows give one line each plus one separator line when there is a row |
| MarkdownConverter.AppendRows | Tran-API-1/src/converters/markdown_converter.py:185-199 | the row loop computes the row lines |
| MarkdownConverter.ConvertTable | Tran-API-1/src/converters/markdown_converter.py:166-201 | a table without rows renders "", otherwise its caption and row lines joined by newlines |
| MarkdownConverter.RowsLinesAt | Tran-API-1/src/converters/markdown_converter.py:185-199 | line 0 is the header row, line 1 the separator and line k + 1 row k |
| MarkdownConverter.TableMdShape | Tran-API-1/src/converters/markdown_converter.py:166-201 | a table without caption has one line per row plus a separator; every row is padded to the widest row's cell count |
| MarkdownConverter.ListLinesMd | Tran-API-1/src/converters/markdown_converter.py:207-211 | one line per item, in order |
| MarkdownConverter.ConvertList | Tran-API-1/src/converters/markdown_converter.py:203-213 | the item loop computes the list's lines joined by newlines |
| MarkdownConverter.ListNumbering | Tran-API-1/src/converters/markdown_converter.py:207-211 | ordered item i reads back as the number i + 1 followed by `. ` and the item; unordered items start with `- ` |
| MarkdownConverter.BlockMd | Tran-API-1/src/converters/markdown_converter.py:103-117 | a positioned text block renders "", an image block never does |
| MarkdownConverter.AppendBlocks | Tran-API-1/src/converters/markdown_converter.py:91-95 | the block loop keeps each non-empty block followed by a blank line |
| MarkdownConverter.ConvertPage | Tran-API-1/src/converters/markdown_converter.py:80-101 | the page's header, block entries and rule joined by newlines |
| MarkdownConverter.PagePartsShape | Tran-API-1/src/converters/markdown_converter.py:84-99 | in a multi-page document a page opens with a `## ` header (title or "Page N") and closes with a `---` rule; a single page has only its blocks |
| MarkdownConverter.AppendPages | Tran-API-1/src/converters/markdown_converter.py:43-46 | the page loop keeps each non-empty page, in order |
| MarkdownConverter.Convert | Tran-API-1/src/converters/markdown_converter.py:30-48 | `convert` computes the frontmatter, title and page parts joined by newlines |
| MarkdownConverter.ConvertOpening | Tran-API-1/src/converters/markdown_converter.py:34-41 | the output opens with the frontmatter when it is included and non-empty, else with `# title` for a titled document |
| TextExtractor.MetadataTitle | Tran-API-1/src/extractors/text_extractor.py:49-56 | the title is the stripped first line when it is non-empty and at most 100 characters, otherwise the source filename |
| TextExtractor.ExtractMetadata | Tran-API-1/src/extractors/text_extractor.py:45-61 | the metadata holds that title, the word count of the whole content, format "txt" and the base filename and modification date, and no author or keywords |
| TextExtractor.HeadingTextShape | Tran-API-1/src/extractors/text_extractor.py:101-115 | a heading is a single line under 80 characters, and under 60 and upper-case unless it is the first paragraph; each of those two cases is enough |
| TextExtractor.MarkedCount | Tran-API-1/src/extractors/text_extractor.py:129-134 | the count of lines that match a list pattern never exceeds the number of lines |
| TextExtractor.IsList | Tran-API-1/src/extractors/text_extractor.py:117-136 | the counting loop decides "at least two lines, at least half of them marked" |
| TextExtractor.IsListShape | Tran-API-1/src/extractors/text_extractor.py:119-136 | single-line text is never a list, and several lines that are all marked always are |
| TextExtractor.IsOrderedList | Tran-API-1/src/extractors/text_extractor.py:138-146 | the early-exit loop decides whether some line opens with a number or letter followed by `.` or `)` and whitespace |
| TextExtractor.ItemOfShape | Tran-API-1/src/extractors/text_extractor.py:154-155 | an item is stripped and does not begin with a marker character |
| TextExtractor.ParseList | Tran-API-1/src/extractors/text_extractor.py:148-159 | the loop computes the non-empty items of the lines, in order |
| TextExtractor.ListItemsShape | Tran-API-1/src/extractors/text_extractor.py:148-159 | every parsed item is non-empty, stripped, and does not begin with a marker character |
| TextExtractor.ExtractLinks | Tran-API-1/src/extractors/text_extractor.py:161-174 | the loop turns each URL match into a link |
| TextExtractor.LinksOfSpec | Tran-API-1/src/extractors/text_extractor.py:161-174 | each link's text is its URL, it is positioned on a URL match, the URL is the matched slice, put behind "https://" when the slice does not start with "http", and the links are in text order |
| TextExtractor.LinksOfComplete | Tran-API-1/src/extractors/text_extractor.py:161-174 | every URL match position that no earlier link covers starts a link |
| TextExtractor.ClassifyPriority | Tran-API-1/src/extractors/text_extractor.py:69-97 | a paragraph is skipped exactly when it cleans to ""; otherwise it is a heading if it looks like one, else a list if it looks like one, else a paragraph; only index 0 gives level 1 |
| TextExtractor.ClassifyOne | Tran-API-1/src/extractors/text_extractor.py:70-97 | one loop step computes the classification of one paragraph |
| TextExtractor.ParseContent | Tran-API-1/src/extractors/text_extractor.py:63-99 | the loop classifies the paragraphs in order and skips the empty ones |
| TextExtractor.ClassifyHeadingLevel | Tran-API-1/src/extractors/text_extractor.py:76-82 | a heading gets level 1 or 2, and level 1 only at index 0 |
| TextExtractor.ClassifiedHeadings | Tran-API-1/src/extractors/text_extractor.py:69-99 | every classified block is a valid record, and only the first paragraph can give a level-1 heading |
| TextExtractor.Extract | Tran-API-1/src/extractors/text_extractor.py:22-43 | `extract` computes the one-page document titled by the file stem |
| TextExtractor.ExtractValid | Tran-API-1/src/extractors/text_extractor.py:22-43 | the document satisfies every record constraint, has exactly one page, and every heading after the first block has level 2 |
| MarkdownExtractor.FrontMatterMatch | Tran-API-1/src/extractors/markdown_extractor.py:62 | a frontmatter match opens with `---` and whitespace up to a newline, and its body ends where a closing `---` fence line begins |
| MarkdownExtractor.StripFrontMatter | Tran-API-1/src/extractors/markdown_extractor.py:84 | the frontmatter block is cut off when it matches, and the content is kept whole otherwise |
| MarkdownExtractor.NoFenceKeepsContent | Tran-API-1/src/extractors/markdown_extractor.py:84 | content that does not open with `---` is kept whole |
| MarkdownExtractor.HasColonIff | Tran-API-1/src/extractors/markdown_extractor.py:66 | the colon search finds a colon exactly when the line holds one |
| MarkdownExtractor.ToMapLookup | Tran-API-1/src/extractors/markdown_extractor.py:65-68 | a key is in the dictionary exactly when some line gives it, and it maps to the value of the last such line |
| MarkdownExtractor.ParseFrontMatter | Tran-API-1/src/extractors/markdown_extractor.py:63-68 | the loop over the body's lines computes the frontmatter dictionary |
| MarkdownExtractor.KeyOfShape | Tran-API-1/src/extractors/markdown_extractor.py:67-68 | a key is cut at the line's first colon, and is lower-cased and free of colons |
| MarkdownExtractor.EntriesShape | Tran-API-1/src/extractors/markdown_extractor.py:65-68 | every frontmatter key is lower-case and free of colons |
| MarkdownExtractor.LeadingHeadingTitle | Tran-API-1/src/extractors/markdown_extractor.py:56-59 | a leading title exists only when the content opens with `#` and a whitespace character |
| MarkdownExtractor.ExtractMetadata | Tran-API-1/src/extractors/markdown_extractor.py:52-78 | the title falls back from the frontmatter title to the leading `#` heading to the file name; author and subject come from the frontmatter; format "md" and the word count |
| MarkdownExtractor.HashRun | Tran-API-1/src/extractors/markdown_extractor.py:92-94 | the heading level is the length of the line's maximal run of leading `#` characters |
| MarkdownExtractor.SevenHashesNoHeading | Tran-API-1/src/extractors/markdown_extractor.py:92 | seven or more leading `#` characters never make a heading |
| MarkdownExtractor.ImageMatch | Tran-API-1/src/extractors/markdown_extractor.py:105-108 | an image line opens with `![alt](url)`; the alt holds no `]` and the URL is non-empty and holds no `)` |
| MarkdownExtractor.LinkLineMatch | Tran-API-1/src/extractors/markdown_extractor.py:118-123 | a link line, once stripped, is exactly `[text](url)` with non-empty text and URL |
| MarkdownExtractor.ListItemsOf | Tran-API-1/src/extractors/markdown_extractor.py:131-138 | a run of list lines gives at most one item per line |
| MarkdownExtractor.ListOf | Tran-API-1/src/extractors/markdown_extractor.py:127-147 | a list block exists exactly when some item is not blank; it is ordered exactly when its first line is numbered |
| MarkdownExtractor.BlankItemsNoList | Tran-API-1/src/extractors/markdown_extractor.py:136-140 | a run whose items are all blank adds no block |
| MarkdownExtractor.CollectList | Tran-API-1/src/extractors/markdown_extractor.py:131-138 | the inner loop consumes the maximal run of list lines and collects their items |
| MarkdownExtractor.StripBars | Tran-API-1/src/extractors/markdown_extractor.py:194 | the stripped line neither begins nor ends with `|` |
| MarkdownExtractor.RowOf | Tran-API-1/src/extractors/markdown_extractor.py:194-207 | a row is a header row exactly when it comes from line 0, has at least one cell, and flags every cell like itself |
| MarkdownExtractor.BuildCells | Tran-API-1/src/extractors/markdown_extractor.py:197-201 | the cell loop maps each cell text to a cell, in order |
| MarkdownExtractor.BuildRow | Tran-API-1/src/extractors/markdown_extractor.py:194-207 | the loop computes the line's row |
| MarkdownExtractor.ParseTable | Tran-API-1/src/extractors/markdown_extractor.py:186-217 | the row loop computes the table function |
| MarkdownExtractor.KeptRowsCells | Tran-API-1/src/extractors/markdown_extractor.py:194-207 | every kept row has at least one cell, each flagged like its row |
| MarkdownExtractor.KeptRowsEmpty | Tran-API-1/src/extractors/markdown_extractor.py:190-210 | no row is kept exactly when every line is a separator |
| MarkdownExtractor.KeptRowsHeader | Tran-API-1/src/extractors/markdown_extractor.py:190-207 | only the first kept row can be a header row, and it is one exactly when line 0 is not a separator |
| MarkdownExtractor.ParseTableShape | Tran-API-1/src/extractors/markdown_extractor.py:186-217 | the table is None exactly when every line is a separator; otherwise it counts its rows and takes its column count from the first kept row |
| MarkdownExtractor.CollectTable | Tran-API-1/src/extractors/markdown_extractor.py:150-153 | the inner loop consumes the maximal run of table lines |
| MarkdownExtractor.LinkAt | Tran-API-1/src/extractors/markdown_extractor.py:223 | a match at a position ends after it, and its slice reads `[text](url)` |
| MarkdownExtractor.LinksFrom | Tran-API-1/src/extractors/markdown_extractor.py:223-230 | each link is positioned on a slice reading `[text](url)`, and the links are in order and never overlap |
| MarkdownExtractor.ExtractLinks | Tran-API-1/src/extractors/markdown_extractor.py:219-232 | the `finditer` loop computes those links |
| MarkdownExtractor.ParaTextJoin | Tran-API-1/src/extractors/markdown_extractor.py:162-170 | a paragraph's text is its lines joined with newlines |
| MarkdownExtractor.CollectParagraph | Tran-API-1/src/extractors/markdown_extractor.py:161-170 | the inner loop consumes the lines that continue the paragraph |
| MarkdownExtractor.HeadingOf | Tran-API-1/src/extractors/markdown_extractor.py:92-101 | a heading line gives a heading whose level is its hash count, between 1 and 6 |
| MarkdownExtractor.Step | Tran-API-1/src/extractors/markdown_extractor.py:89-182 | every pass of the loop moves forward by at least one line |
| MarkdownExtractor.StepAt | Tran-API-1/src/extractors/markdown_extractor.py:90-182 | the loop body computes one step |
| MarkdownExtractor.ParseFromStep | Tran-API-1/src/extractors/markdown_extractor.py:89-182 | the blocks from a line are that step's block followed by the blocks from the next line |
| MarkdownExtractor.ParseLines | Tran-API-1/src/extractors/markdown_extractor.py:86-184 | the `while` loop computes the blocks of all lines |
| MarkdownExtractor.ParseContent | Tran-API-1/src/extractors/markdown_extractor.py:80-184 | `_parse_content` removes the frontmatter and then runs the line loop |
| MarkdownExtractor.HeadingStep | Tran-API-1/src/extractors/markdown_extractor.py:92-103 | a heading line gives a heading of its hash-count level, or nothing when its text cleans to ""; the loop moves one line on |
| MarkdownExtractor.ListStep | Tran-API-1/src/extractors/markdown_extractor.py:127-147 | a list line consumes the maximal run of list lines, and its order comes from the first line only |
| MarkdownExtractor.TableStep | Tran-API-1/src/extractors/markdown_extractor.py:149-159 | a line starting with `|` consumes the maximal run of table lines |
| MarkdownExtractor.ParagraphStep | Tran-API-1/src/extractors/markdown_extractor.py:161-180 | any other non-blank line starts a paragraph that runs to the next blank, `#`, `|` or list line |
| MarkdownExtractor.StepValid | Tran-API-1/src/extractors/markdown_extractor.py:89-182 | every block a step yields satisfies the record constraints |
| MarkdownExtractor.ParseFromValid | Tran-API-1/src/extractors/markdown_extractor.py:80-184 | every parsed block satisfies the record constraints |
| MarkdownExtractor.FirstH1At | Tran-API-1/src/extractors/markdown_extractor.py:40-43 | the search stops at the first level-1 heading |
| MarkdownExtractor.FindTitle | Tran-API-1/src/extractors/markdown_extractor.py:39-43 | the title is None exactly when there is no level-1 heading; otherwise it is the first one's text |
| MarkdownExtractor.Extract | Tran-API-1/src/extractors/markdown_extractor.py:23-50 | `extract` computes a one-page document titled by the first level-1 heading, else by the file stem |
| MarkdownExtractor.ExtractValid | Tran-API-1/src/extractors/markdown_extractor.py:23-50 | the extracted document satisfies every record constraint |
| PdfExtractor.BoldFlagModulo | Tran-API-1/src/extractors/pdf_extractor.py:145-147 | `flags & 2 ** 4` is set exactly when the flags modulo 32 are at least 16 |
| PdfExtractor.MaxSizeInBounds | Tran-API-1/src/extractors/pdf_extractor.py:141-143 | the running maximum never drops below its start, bounds every span's size, and is either the start or some span's size |
| PdfExtractor.BlockMaxSizeIsMax | Tran-API-1/src/extractors/pdf_extractor.py:132-143 | a block's font size is non-negative and bounds every span's size; it is some span's size unless it is 0 |
| PdfExtractor.BoldInIff | Tran-API-1/src/extractors/pdf_extractor.py:145-147 | the running bold flag holds exactly when it started set or some span has the bold bit |
| PdfExtractor.BlockBoldIff | Tran-API-1/src/extractors/pdf_extractor.py:133-147 | a block is bold exactly when one of its spans has the bold bit |
| PdfExtractor.BlockTextLines | Tran-API-1/src/extractors/pdf_extractor.py:135-149 | when no span text holds a newline, splitting the block text at newlines gives back the line texts and a final "" |
| PdfExtractor.ScanBlock | Tran-API-1/src/extractors/pdf_extractor.py:131-149 | the nested line and span loops compute the block text, the largest size and the bold flag |
| PdfExtractor.ScanLine | Tran-API-1/src/extractors/pdf_extractor.py:136-147 | the span loop computes a line's text and carries the running size and bold flag on |
| PdfExtractor.HeadingLevel | Tran-API-1/src/extractors/pdf_extractor.py:175-187 | the heading level is always between 1 and 6 |
| PdfExtractor.HeadingLevelMonotone | Tran-API-1/src/extractors/pdf_extractor.py:175-187 | a larger font never gives a deeper heading level |
| PdfExtractor.HeadingLevelThresholds | Tran-API-1/src/extractors/pdf_extractor.py:177-186 | a size reaches level L or a shallower one exactly when it is at least 24, 20, 16, 14 or 12 points for L = 1 to 5 |
| PdfExtractor.ClassifyTextBlock | Tran-API-1/src/extractors/pdf_extractor.py:127-171 | a block is kept exactly when it has type 0 and cleans to a non-empty text; it is a heading exactly when that text passes `is_heading` and the block is at least 14 points or bold |
| PdfExtractor.HeadingShape | Tran-API-1/src/extractors/pdf_extractor.py:157-164 | a heading's text is one stripped line of 3 to 200 characters, and its level is 1 to 6 |
| PdfExtractor.TextBlockAt | Tran-API-1/src/extractors/pdf_extractor.py:128-171 | one pass of the block loop computes that block |
| PdfExtractor.ExtractTextBlocks | Tran-API-1/src/extractors/pdf_extractor.py:121-173 | the kept text blocks, in order |
| PdfExtractor.ImageBlockOf | Tran-API-1/src/extractors/pdf_extractor.py:196-216 | an image gives a block exactly when it was extracted; the block carries the id, the Base64 data, the format and the hint with the image's index |
| PdfExtractor.ExtractImages | Tran-API-1/src/extractors/pdf_extractor.py:189-220 | the extracted images in order, numbered by their index among all of the page's images |
| PdfExtractor.LinkBlockOf | Tran-API-1/src/extractors/pdf_extractor.py:226-237 | an annotation gives a link exactly when it is a URI link with a non-empty URI; the text is the stripped clip text, else the URI |
| PdfExtractor.LinkTextNonEmpty | Tran-API-1/src/extractors/pdf_extractor.py:231 | a kept link's text is never empty |
| PdfExtractor.ExtractLinks | Tran-API-1/src/extractors/pdf_extractor.py:222-239 | the kept links, in order |
| PdfExtractor.TableShape | Tran-API-1/src/extractors/pdf_extractor.py:248-276 | an empty grid gives no table; otherwise the table is valid, has a header, counts its rows, takes its column count from row 0, and only row 0 holds header cells with the cleaned grid text |
| PdfExtractor.ExtractTables | Tran-API-1/src/extractors/pdf_extractor.py:241-280 | the non-empty tables in order, numbered by their index among all detected tables |
| PdfExtractor.ExtractPage | Tran-API-1/src/extractors/pdf_extractor.py:96-119 | a page is its text blocks, then images, links and tables, with the direction of the text blocks |
| PdfExtractor.CollectedValid | Tran-API-1/src/extractors/pdf_extractor.py:96-119 | a step that produces only valid blocks collects only valid blocks |
| PdfExtractor.PageValid | Tran-API-1/src/extractors/pdf_extractor.py:96-119 | a page is numbered as given and holds only valid blocks |
| PdfExtractor.PdfDateDigits | Tran-API-1/src/extractors/pdf_extractor.py:81-83 | the parser sees at most 14 characters |
| PdfExtractor.ParsePdfDate | Tran-API-1/src/extractors/pdf_extractor.py:75-86 | "" gives None; otherwise the timestamp parse of the date digits |
| PdfExtractor.PdfDateDigitsSpec | Tran-API-1/src/extractors/pdf_extractor.py:81-83 | the parser sees the first 14 characters after one leading "D:", or of a string without it |
| PdfExtractor.ExtractMetadata | Tran-API-1/src/extractors/pdf_extractor.py:50-73 | title, author, subject, keywords, dates, page count and format are taken from the properties as `_extract_metadata` does, each with its fallback |
| PdfExtractor.Extract | Tran-API-1/src/extractors/pdf_extractor.py:23-48 | the page loop computes the document |
| PdfExtractor.ExtractPages | Tran-API-1/src/extractors/pdf_extractor.py:31-33 | one page per PDF page, in order, numbered from 1; the metadata counts them |
| PdfExtractor.ExtractValid | Tran-API-1/src/extractors/pdf_extractor.py:23-48 | the extracted document satisfies every record constraint |
| PdfExtractor.PageStepValid | Tran-API-1/src/extractors/pdf_extractor.py:31-33 | every page the loop builds satisfies the record constraints |
| PdfExtractor.ExtractTitle | Tran-API-1/src/extractors/pdf_extractor.py:42-64 | the title is the PDF title when set, else the file name when set, else the stem of the path |
| DocxExtractor.ExtractMetadata | Tran-API-1/src/extractors/docx_extractor.py:65-79 | the core properties give title (else the file name), author, subject, dates (modified else the file's) and keywords; no page count; format "docx" |
| DocxExtractor.FirstDigitFromSpec | Tran-API-1/src/extractors/docx_extractor.py:129-132 | the search from d returns a level in 1..6 whose digit occurs, skipping only digits that do not occur, or 1 |
| DocxExtractor.HeadingLevelSpec | Tran-API-1/src/extractors/docx_extractor.py:127-132 | the level is the smallest d in 1..6 whose digit occurs in the style name, and 1 when none occurs |
| DocxExtractor.GetHeadingLevel | Tran-API-1/src/extractors/docx_extractor.py:127-132 | the loop with its early return computes that level |
| DocxExtractor.FindRel | Tran-API-1/src/extractors/docx_extractor.py:150 | the lookup finds a relationship with the given id, and finds none only when no relationship has it |
| DocxExtractor.LinkOf | Tran-API-1/src/extractors/docx_extractor.py:147-159 | a hyperlink gives a link exactly when it has an id naming a relationship; the URL is that relationship's target and the text falls back to it |
| DocxExtractor.ExtractLinks | Tran-API-1/src/extractors/docx_extractor.py:142-163 | the hyperlink loop keeps those links, in order |
| DocxExtractor.LinksResolve | Tran-API-1/src/extractors/docx_extractor.py:147-159 | every kept link points at a relationship's target, and has text unless that target is "" |
| DocxExtractor.ClassifyParagraphSpec | Tran-API-1/src/extractors/docx_extractor.py:89-125 | empty text gives nothing; a "heading" style gives a heading of its level; a list style or numbering gives a one-item list, ordered exactly for number or decimal styles; anything else gives a paragraph, bold or italic exactly when some run is |
| DocxExtractor.ExtractParagraph | Tran-API-1/src/extractors/docx_extractor.py:89-125 | one paragraph's work computes its block |
| DocxExtractor.TableShape | Tran-API-1/src/extractors/docx_extractor.py:165-191 | a table without rows gives nothing; otherwise a valid header table with one row per table row, only row 0 as header, row 0's column count and the cleaned cell texts |
| DocxExtractor.ExtractBody | Tran-API-1/src/extractors/docx_extractor.py:32-42 | the body loop keeps the paragraph and table blocks, in document order |
| DocxExtractor.BodyBlockShape | Tran-API-1/src/extractors/docx_extractor.py:32-42 | no body element gives an image, and every body block is valid |
| DocxExtractor.ImageOf | Tran-API-1/src/extractors/docx_extractor.py:199-211 | a relationship gives an image exactly when its type names an image and its bytes can be read; the format is the lower-cased text after the target's last dot |
| DocxExtractor.ExtractImages | Tran-API-1/src/extractors/docx_extractor.py:193-217 | the image blocks, in relationship order |
| DocxExtractor.ImagesAreImages | Tran-API-1/src/extractors/docx_extractor.py:193-217 | every block the image loop yields is an image block |
| DocxExtractor.Extract | Tran-API-1/src/extractors/docx_extractor.py:25-63 | `extract` computes the one-page document of body blocks followed by images |
| DocxExtractor.ImagesAfterBody | Tran-API-1/src/extractors/docx_extractor.py:44-56 | the single page, numbered 1, holds the body blocks and then the images; every image comes after every body block |
| DocxExtractor.ExtractValid | Tran-API-1/src/extractors/docx_extractor.py:25-63 | the extracted document satisfies every record constraint |
| DocxExtractor.ExtractTitle | Tran-API-1/src/extractors/docx_extractor.py:59-71 | the title is the core-properties title when set, else the file name when set, else the stem of the path |
| PptxExtractor.ExtractMetadata | Tran-API-1/src/extractors/pptx_extractor.py:51-65 | the core properties give title (else the file name), author, subject, dates (modified else the file's) and keywords; format "pptx"; no page count yet |
| PptxExtractor.ClassifyFrameParagraphSpec | Tran-API-1/src/extractors/pptx_extractor.py:125-150 | empty text gives nothing; a top-level paragraph under 100 characters gives a level-2 heading; anything else gives a paragraph, bold or italic exactly when some run is; the hint names the slide |
| PptxExtractor.FrameParagraphAt | Tran-API-1/src/extractors/pptx_extractor.py:126-150 | one paragraph of the frame loop computes its block |
| PptxExtractor.ExtractTextFrame | Tran-API-1/src/extractors/pptx_extractor.py:121-152 | the frame loop keeps the non-empty paragraphs' blocks, in order |
| PptxExtractor.FrameBlocksValid | Tran-API-1/src/extractors/pptx_extractor.py:121-152 | every text-frame block is valid and none is an image |
| PptxExtractor.TableShape | Tran-API-1/src/extractors/pptx_extractor.py:154-181 | a table without rows gives nothing; otherwise a valid header table with one row per table row, only row 0 as header, row 0's column count and the cleaned cell texts |
| PptxExtractor.ImageOf | Tran-API-1/src/extractors/pptx_extractor.py:183-200 | a picture gives an image block exactly when it can be read; the block carries the id, the Base64 data, the extension and the slide hint |
| PptxExtractor.TitleShapeBlocks | Tran-API-1/src/extractors/pptx_extractor.py:85-92 | a title placeholder's heading is the first block of its shape |
| PptxExtractor.SlideTitleSpec | Tran-API-1/src/extractors/pptx_extractor.py:78-86 | a slide has a title exactly when some shape is a title placeholder with text; the title is the cleaned text of the last such shape |
| PptxExtractor.ExtractShapeText | Tran-API-1/src/extractors/pptx_extractor.py:81-99 | the placeholder and text-frame branches compute a shape's text blocks and its title |
| PptxExtractor.ExtractShape | Tran-API-1/src/extractors/pptx_extractor.py:81-109 | one shape of the slide loop gives its text blocks, then its table, then its picture |
| PptxExtractor.ExtractSlide | Tran-API-1/src/extractors/pptx_extractor.py:75-119 | the shape loop computes the slide's page |
| PptxExtractor.SlideTitleOnPage | Tran-API-1/src/extractors/pptx_extractor.py:85-92 | a slide's title is the text of a level-1 heading on its page, hinted as the slide's title |
| PptxExtractor.ShapeBlocksValid | Tran-API-1/src/extractors/pptx_extractor.py:81-109 | every block a shape yields is valid |
| PptxExtractor.SlideValid | Tran-API-1/src/extractors/pptx_extractor.py:75-119 | a slide numbered from 1 gives a valid page with that number |
| PptxExtractor.ExtractSlides | Tran-API-1/src/extractors/pptx_extractor.py:32-34 | the slide loop gives slide k as page k |
| PptxExtractor.Extract | Tran-API-1/src/extractors/pptx_extractor.py:25-49 | `extract` computes the document, with the page count filled in |
| PptxExtractor.ExtractPages | Tran-API-1/src/extractors/pptx_extractor.py:32-42 | one page per slide, in order, numbered from 1; the page count is the number of slides |
| PptxExtractor.ExtractValid | Tran-API-1/src/extractors/pptx_extractor.py:25-49 | the extracted document satisfies every record constraint |
| XlsxExtractor.ExtractMetadata | Tran-API-1/src/extractors/xlsx_extractor.py:51-65 | the properties give title (else the file name), the creator as author, subject, dates (modified else the file's) and keywords; format "xlsx"; no page count yet |
| XlsxExtractor.ExaminedRows | Tran-API-1/src/extractors/xlsx_extractor.py:114 | the reader looks at a prefix of the rows, at most 1000 long, and at all of them when there are no more |
| XlsxExtractor.ExaminedRowsOfGrid | Tran-API-1/src/extractors/xlsx_extractor.py:114 | on a grid of the reported dimensions the reader looks at min(max_row, 1000) rows of max_column values |
| XlsxExtractor.ScanRow | Tran-API-1/src/extractors/xlsx_extractor.py:115-129 | the cell loop builds one cell per value and finds whether some cell holds a value |
| XlsxExtractor.ExtractTable | Tran-API-1/src/extractors/xlsx_extractor.py:104-146 | the row loop computes the sheet's table |
| XlsxExtractor.RowStepAt | Tran-API-1/src/extractors/xlsx_extractor.py:131-135 | a row is kept exactly when it has content, as a header row exactly when it is row 0 |
| XlsxExtractor.KeptRowsSpec | Tran-API-1/src/extractors/xlsx_extractor.py:114-135 | the kept rows are exactly the examined rows with content, in order; none are kept exactly when no examined row has a value |
| XlsxExtractor.NoHeaderWithoutRowZero | Tran-API-1/src/extractors/xlsx_extractor.py:128-142 | when row 0 has no value no kept row is a header row, although the table still claims a header |
| XlsxExtractor.RowCap | Tran-API-1/src/extractors/xlsx_extractor.py:114 | rows after the first 1000 never matter, and a table has at most 1000 rows |
| XlsxExtractor.TableShape | Tran-API-1/src/extractors/xlsx_extractor.py:104-146 | there is no table when a dimension is unknown or zero or no examined row has a value; otherwise a valid header table of the kept rows with the first kept row's column count |
| XlsxExtractor.KeptRowsValid | Tran-API-1/src/extractors/xlsx_extractor.py:126-135 | every cell of a kept row is valid |
| XlsxExtractor.ExtractSheet | Tran-API-1/src/extractors/xlsx_extractor.py:75-102 | `_extract_sheet` computes the sheet's page |
| XlsxExtractor.SheetShape | Tran-API-1/src/extractors/xlsx_extractor.py:75-102 | a sheet page is numbered as given, titled with the sheet name, opens with a level-2 heading of that name, and holds the table (if any) after it |
| XlsxExtractor.SheetValid | Tran-API-1/src/extractors/xlsx_extractor.py:75-102 | a sheet numbered from 1 gives a valid page |
| XlsxExtractor.ExtractSheets | Tran-API-1/src/extractors/xlsx_extractor.py:28-31 | the sheet loop gives sheet k as page k |
| XlsxExtractor.Extract | Tran-API-1/src/extractors/xlsx_extractor.py:21-49 | `extract` computes the document, with the page count filled in |
| XlsxExtractor.ExtractPages | Tran-API-1/src/extractors/xlsx_extractor.py:28-40 | one page per sheet, in order, numbered from 1 and titled with the sheet name; the page count is the number of sheets |
| XlsxExtractor.ExtractValid | Tran-API-1/src/extractors/xlsx_extractor.py:21-49 | the extracted document satisfies every record constraint |
| OcrExtractor.FindRowBoundaries | Tran-API-1/src/extractors/ocr_extractor.py:211-224 | the projection scan computes the row boundaries |
| OcrExtractor.ScanShape | Tran-API-1/src/extractors/ocr_extractor.py:212-224 | after n rows a line is open exactly when row n-1 is above the threshold, and it began where that run began; the boundaries strictly increase, lie before row n, and number one per closed run |
| OcrExtractor.ScanSound | Tran-API-1/src/extractors/ocr_extractor.py:222-224 | every boundary is the floor-midpoint of a run closed so far |
| OcrExtractor.ScanComplete | Tran-API-1/src/extractors/ocr_extractor.py:216-224 | the floor-midpoint of every run closed so far is a boundary |
| OcrExtractor.SameRunStart | Tran-API-1/src/extractors/ocr_extractor.py:218-220 | two runs reaching the same row began at the same row |
| OcrExtractor.RowBoundariesSpec | Tran-API-1/src/extractors/ocr_extractor.py:211-224 | the row boundaries strictly increase and are exactly the floor-midpoints of the closed runs; a run still open at the last row adds none |
| OcrExtractor.ScanPrefix | Tran-API-1/src/extractors/ocr_extractor.py:216-224 | the scan of the first n rows does not depend on later rows |
| OcrExtractor.OpenRunAddsNothing | Tran-API-1/src/extractors/ocr_extractor.py:217-220 | a final row above the threshold adds no boundary |
| OcrExtractor.BandTexts | Tran-API-1/src/extractors/ocr_extractor.py:230-238 | one band text per pair of consecutive edges, read between those edges |
| OcrExtractor.BandCellsIsSplit | Tran-API-1/src/extractors/ocr_extractor.py:241 | the tab test is redundant: a text without a tab splits to itself |
| OcrExtractor.BandStepAt | Tran-API-1/src/extractors/ocr_extractor.py:240-252 | a band with text gives a row of its tab-separated cells, a header row exactly for band 0 |
| OcrExtractor.ReadBands | Tran-API-1/src/extractors/ocr_extractor.py:229-252 | the band loop keeps the rows of the bands with text, in order |
| OcrExtractor.OcrTableRegion | Tran-API-1/src/extractors/ocr_extractor.py:198-264 | `_ocr_table_region` computes the region's table |
| OcrExtractor.RegionRowsSpec | Tran-API-1/src/extractors/ocr_extractor.py:229-252 | the kept rows are exactly the bands with stripped text, in order; each is built from its band's tab-separated pieces and is a header row exactly for band 0 |
| OcrExtractor.DefaultBands | Tran-API-1/src/extractors/ocr_extractor.py:226-230 | with no boundary the bands are the top and bottom halves; with exactly one boundary there is no band and so no table |
| OcrExtractor.RegionTableShape | Tran-API-1/src/extractors/ocr_extractor.py:254-264 | a region gives no table exactly when no band has text; otherwise a valid header table with one row per kept band and as many columns as its widest row |
| OcrExtractor.WidestRow | Tran-API-1/src/extractors/ocr_extractor.py:259 | the column count bounds every row's width and is reached by some row |
| OcrExtractor.RegionRowsEmpty | Tran-API-1/src/extractors/ocr_extractor.py:240-254 | no row is kept exactly when every band's stripped text is empty |
| OcrExtractor.RegionRowsValid | Tran-API-1/src/extractors/ocr_extractor.py:243-252 | every cell of a kept row is valid |
| OcrExtractor.NoHeaderWithoutBandZero | Tran-API-1/src/extractors/ocr_extractor.py:246-257 | when band 0 has no text no row is a header row, although the table still claims a header |
| OcrExtractor.CandidateStepAt | Tran-API-1/src/extractors/ocr_extractor.py:188-192 | a region is read as a table only when it is wider than 100 and taller than 50 pixels |
| OcrExtractor.ExtractTablesFromImage | Tran-API-1/src/extractors/ocr_extractor.py:163-196 | the contour loop keeps the tables of the large enough regions, in order |
| OcrExtractor.ImageTablesSpec | Tran-API-1/src/extractors/ocr_extractor.py:185-192 | each table of an image is the valid table of a region wider than 100 and taller than 50 pixels |
| OcrExtractor.FontSize | Tran-API-1/src/extractors/ocr_extractor.py:124 | the font size is the larger of 8 and three quarters of the box height |
| OcrExtractor.WordStepAt | Tran-API-1/src/extractors/ocr_extractor.py:106-134 | only kept word-level entries give a block and a confidence |
| OcrExtractor.ReadWords | Tran-API-1/src/extractors/ocr_extractor.py:106-134 | the word loop computes the word blocks and their confidences |
| OcrExtractor.WordBlocksSpec | Tran-API-1/src/extractors/ocr_extractor.py:111-134 | the blocks are exactly those of the kept word-level entries, in order, each carrying its box and its confidence divided by 100 |
| OcrExtractor.WordCounts | Tran-API-1/src/extractors/ocr_extractor.py:116-134 | there is one confidence per block, and none exactly when no entry is a kept word |
| OcrExtractor.WordConfidencesNonNegative | Tran-API-1/src/extractors/ocr_extractor.py:111 | every kept confidence is at least 0 |
| OcrExtractor.WordBlocksValid | Tran-API-1/src/extractors/ocr_extractor.py:126-134 | with confidences of at most 100, every word block is a valid positioned block |
| OcrExtractor.SumRealBounds | Tran-API-1/src/extractors/ocr_extractor.py:151 | a sum of values in [0, hi] lies in [0, hi times their number] |
| OcrExtractor.AverageConfidenceBounds | Tran-API-1/src/extractors/ocr_extractor.py:151 | the mean lies between 0 and the largest possible confidence, and is 0 without words |
| OcrExtractor.PerformOcr | Tran-API-1/src/extractors/ocr_extractor.py:88-161 | `_perform_ocr` computes the OCR result |
| OcrExtractor.OcrResultSpec | Tran-API-1/src/extractors/ocr_extractor.py:136-161 | the confidence is 0 without words and in [0, 1] for confidences of at most 100; the language is "ar" exactly when the page text reads right to left; the word count is that of the page text |
| OcrExtractor.Extract | Tran-API-1/src/extractors/ocr_extractor.py:36-65 | `extract` computes the one-page document |
| OcrExtractor.BuildImageDocument | Tran-API-1/src/extractors/ocr_extractor.py:44-65 | the part after OCR computes the metadata, the page and the document |
| OcrExtractor.AppendEach | Tran-API-1/src/extractors/ocr_extractor.py:47-50 | each append loop adds its elements in order |
| OcrExtractor.ExtractShape | Tran-API-1/src/extractors/ocr_extractor.py:36-65 | one page, numbered 1, holds the word blocks and then the tables; the metadata titles the file, counts one page and the words, and records format "image" |
| OcrExtractor.ExtractValid | Tran-API-1/src/extractors/ocr_extractor.py:36-65 | with confidences of at most 100, the extracted document satisfies every record constraint |
| OcrExtractor.PageScanValid | Tran-API-1/src/extractors/ocr_extractor.py:310-318 | the page of an image is valid |
| OcrExtractor.ScanPages | Tran-API-1/src/extractors/ocr_extractor.py:301-321 | the image loop computes the pages and the page texts |
| OcrExtractor.ScanPage | Tran-API-1/src/extractors/ocr_extractor.py:302-320 | one pass computes an image's page and text |
| OcrExtractor.ExtractScanned | Tran-API-1/src/extractors/ocr_extractor.py:293-339 | `ScannedPDFExtractor.extract` computes the document |
| OcrExtractor.ScannedPages | Tran-API-1/src/extractors/ocr_extractor.py:301-330 | images become pages 1 to n in order, each holding its word blocks and then its tables; the page count is n and the format "scanned_pdf" |
| OcrExtractor.ScannedValid | Tran-API-1/src/extractors/ocr_extractor.py:293-339 | with confidences of at most 100 in every image, the document satisfies every record constraint |
| Tables.HeaderRows | Tran-API-1/src/extractors/docx_extractor.py:169-181 | one row per grid row |
| Tables.HeaderRowsAt | Tran-API-1/src/extractors/pptx_extractor.py:158-170 | row k of the table is built from grid row k, a header row exactly when k is 0 |
| Tables.RowOfShape | Tran-API-1/src/extractors/pdf_extractor.py:255-267 | a built row has one valid cell per entry, and header cells exactly in row 0 |
| Tables.HeaderTableShape | Tran-API-1/src/extractors/docx_extractor.py:183-191 | a grid without rows gives no table; otherwise a valid header table counting the grid's rows, with row 0's column count |
| Tables.BuildCells | Tran-API-1/src/extractors/docx_extractor.py:170-176 | the cell loop gives one cell per entry, in order |
| Tables.BuildHeaderRows | Tran-API-1/src/extractors/docx_extractor.py:169-181 | the row loop computes the rows |
| Tables.BuildHeaderTable | Tran-API-1/src/extractors/pptx_extractor.py:154-181 | `_extract_table` computes the table |
| Agent.InputFormatsAreKeys | Tran-API-1/src/agent.py:22-31 | the input format list names every key of the extractor map, and each only once |
| Agent.ExtractorMapAgrees | Tran-API-1/src/agent.py:22-31 | the map sends an extension to an extractor exactly when that extractor lists it as supported |
| Agent.ImagesNotDispatched | Tran-API-1/src/agent.py:22-31 | no image extension is in the map, so images never reach the OCR extractor through the agent |
| Agent.DispatchValidates | Tran-API-1/src/agent.py:73-83 | for an existing file with a mapped extension, the chosen extractor's own check accepts the path |
| Agent.OutputFormats | Tran-API-1/src/agent.py:33-38 | the output formats are exactly the converter map's keys |
| Agent.Deliver | Tran-API-1/src/agent.py:144-147 | the result carries the converted text, and it is saved exactly when the output path is truthy |
| Agent.ExportOutcome | Tran-API-1/src/agent.py:114-147 | without a document the export fails with NoDocumentLoaded; with one it succeeds exactly when the lower-cased format is a converter key, and otherwise fails naming that format |
| Agent.ExportIgnoresCase | Tran-API-1/src/agent.py:132 | the format name is case-insensitive |
| Agent.ExportByKey | Tran-API-1/src/agent.py:141-147 | exporting under a lower-case key gives the chosen converter's output, delivered |
| Agent.MarkdownAliases | Tran-API-1/src/agent.py:36-37 | "md" and "markdown", in any case, give the same Markdown text |
| Agent.JsonNotExported | Tran-API-1/src/agent.py:134-139 | "json", in any case, is not an export format |
| Agent.SaveWritesConvertOutput | Tran-API-1/src/agent.py:144-147 | saving succeeds exactly when converting does, and writes exactly the text the conversion gives |
| Agent.JsonExportResult | Tran-API-1/src/agent.py:196-219 | it fails exactly when there is no document; otherwise it gives the JSON text, saved exactly when the path is truthy |
| Agent.Titled | Tran-API-1/src/agent.py:279-280 | the title and the metadata title both become `t`, and nothing else changes |
| Agent.TitleNamesOutput | Tran-API-1/src/agent.py:271-280 | after a non-empty title is set, every converter names its output file after it |
| Agent.ParseDirection | Tran-API-1/src/agent.py:290 | a string parses to the direction whose value it is, and fails exactly for anything but "ltr", "rtl" and "auto" |
| Agent.DirectionRoundTrip | Tran-API-1/src/agent.py:282-290 | every direction's value parses back to it |
| Agent.DisjointFilters | Tran-API-1/src/agent.py:305-306 | two disjoint filters of a sequence together keep at most its length |
| Agent.SummaryCounts | Tran-API-1/src/agent.py:292-311 | the block total counts every block of every page; the image and table counts are the image and table blocks, and together never exceed the total |
| Agent.DocumentAgent.constructor | Tran-API-1/src/agent.py:40-43 | a new agent holds no document and no source path |
| Agent.DocumentAgent.SetDocument | Tran-API-1/src/agent.py:50-53 | the setter replaces the document and keeps the source path |
| Agent.DocumentAgent.Load | Tran-API-1/src/agent.py:55-88 | a missing file fails with FileNotFound, an unmapped extension fails naming it and the supported list, and otherwise the mapped extractor's result is returned; success records the document and the path, failure changes nothing |
| Agent.DocumentAgent.LoadFromJson | Tran-API-1/src/agent.py:90-100 | the decoded document replaces the loaded one; failure changes nothing; the source path is kept |
| Agent.DocumentAgent.LoadFromDict | Tran-API-1/src/agent.py:102-112 | as LoadFromJson, from a dictionary |
| Agent.DocumentAgent.Export | Tran-API-1/src/agent.py:114-147 | `export` computes the export function on the current document |
| Agent.DocumentAgent.ExportToHtml | Tran-API-1/src/agent.py:149-164 | HTML with the given style and image options, delivered; NoDocumentLoaded without a document |
| Agent.DocumentAgent.ExportToDocx | Tran-API-1/src/agent.py:166-177 | the DOCX output with the given image option, delivered; NoDocumentLoaded without a document |
| Agent.DocumentAgent.ExportToMarkdown | Tran-API-1/src/agent.py:179-194 | Markdown with the given frontmatter and image options, delivered; NoDocumentLoaded without a document |
| Agent.DocumentAgent.ExportToJson | Tran-API-1/src/agent.py:196-219 | `export_to_json` computes the JSON export function |
| Agent.DocumentAgent.GetText | Tran-API-1/src/agent.py:221-229 | it fails exactly when there is no document, and otherwise gives the document's text |
| Agent.DocumentAgent.GetLinks | Tran-API-1/src/agent.py:231-239 | it fails exactly when there is no document, and otherwise gives all its links |
| Agent.DocumentAgent.GetImages | Tran-API-1/src/agent.py:241-249 | it fails exactly when there is no document, and otherwise gives all its images |
| Agent.DocumentAgent.GetTables | Tran-API-1/src/agent.py:251-259 | it fails exactly when there is no document, and otherwise gives all its tables |
| Agent.DocumentAgent.GetMetadata | Tran-API-1/src/agent.py:261-269 | it fails exactly when there is no document, and otherwise gives its metadata |
| Agent.DocumentAgent.SetTitle | Tran-API-1/src/agent.py:271-280 | without a document it fails and changes nothing; otherwise the document becomes its titled form |
| Agent.DocumentAgent.SetDirection | Tran-API-1/src/agent.py:282-290 | it succeeds exactly when a document is loaded and the value names a direction, which then replaces the document's direction; on failure nothing changes |
| Agent.DocumentAgent.GetSummary | Tran-API-1/src/agent.py:292-311 | it fails exactly when there is no document, and otherwise gives the summary |
| Agent.DocumentAgent.Repr | Tran-API-1/src/agent.py:323-327 | the text names the document's title, or says that no document is loaded |

## Left out

- Native parsers: PyMuPDF, python-docx, python-pptx and openpyxl are not modelled. Each extractor takes the tree, grid or record list they would produce as an input value.
- OpenCV and Tesseract are not modelled. The OCR model takes their outputs as input values: the word records of `image_to_data`, the row projection of the thresholded region, and the text Tesseract reads from each band.
- `_preprocess_image`, `is_scanned_pdf`, the language settings, `extract_from_image` and `extract_from_scanned_pdf` in `ocr_extractor.py` are not modelled. They are image processing, page rendering or thin wrappers over the extractors.
- Unicode database lookups are uninterpreted functions: NFKC normalisation (`Nfkc`), `unicodedata.bidirectional` (`BidiClassOf`) and `isalnum` beyond ASCII (`UnicodeAlnum`).
- Arabic reshaping and the bidi display algorithm, as used by `fix_arabic_text`, are one uninterpreted function (`ArabicDisplay`). They are library code.
- `datetime.strptime` is the uninterpreted `ParseTimestamp`, which gives None where the call raises.
- Base64 encoding and decoding are uninterpreted. Only the data-URI framing around them is modelled.
- JSON serialisation and parsing (`to_json`, `from_json`, `from_dict`) are uninterpreted. Pydantic validation is the `Valid*` predicates on the document datatypes.
- `generate_image_id` and the other uuid-based ids are modelled from a given hex string or an index-to-id function. Randomness is outside the model.
- Exceptions that the source catches and ignores are modelled as the value the handler leaves. Examples: image bytes that cannot be read, PDF images or tables that fail, and the `except` in `fix_arabic_text`. The failing library call itself is an input.
- File-system effects are not modelled: existence is a boolean parameter, and `save`, `mkdir` and file writes become the output string paired with the path. The returned path is the given string, without `str(Path)` normalisation.
- `get_file_size`, `get_filename` and `get_extension` in `base_extractor.py` are not modelled. They are one-line file-system or path queries, and the path parts are `Paths.Name` and `Paths.Suffix`.
- `save_image`, `get_image_format`, `get_image_dimensions`, `resize_image` and `convert_image_format` in `image_utils.py` are not modelled. They are PIL image operations.
- `preserve_arabic_order`, `clean_arabic_text`, `normalize_whitespace` and `merge_text_blocks` in `text_utils.py` are not modelled. No modelled operation calls them.
- `docx_converter.py` is not part of this model. `export_to_docx` and `export("docx")` call an uninterpreted `DocxConvert`.
- The HTML stylesheet returned by `_get_styles` is an opaque constant string (`Styles`).
- Keyword arguments to the converters are typed option records. A `TypeError` for an unknown keyword is not modelled.
- `app.py`, `main.py` and the package `__init__.py` re-exports are not modelled. They are HTTP, command-line and import glue.
- Values that the source computes but never uses are left out: the OCR `all_text_parts` list, the scanned-PDF `total_confidence` and the Markdown table's `col_widths`.
- Text classification is ASCII only: lower-casing (`Strings.Lower`), `str.isupper` (`TextExtractor.IsUpper`) and digit tests. Python's full Unicode case mapping is not modelled.
- Floats are Dafny reals: OCR confidences, font sizes and bounding boxes. Rounding is not modelled.
- The `str(value)` conversion of spreadsheet cells is not modelled: a cell is already its string or None.
- `XlsxExtractor.ExtractTable`: the reader walks the rows it is given, capped at 1000; it matches `iter_rows(max_row=min(max_row, 1000))` on sheets whose rows satisfy `SheetGrid` (`ExaminedRowsOfGrid`). The model does not require this of its input.
- `DocxExtractor.FindRel`: relationship ids in a `.docx` part are taken as unique. With duplicate ids the first match wins.
- `DocumentModel.AddPage`: modelled on values, as a function that returns the extended document. Python's in-place append, and its aliasing of the caller's object, are not captured.
- `Agent.DocumentAgent.SetTitle` and `Agent.DocumentAgent.SetDirection`: they replace the agent's document with an updated value. Aliases to the earlier document object, which Python would also see change, are not captured.
- `Agent.DocumentAgent.GetMetadata`: returns the `Metadata` value instead of the dictionary that `model_dump` produces.
- `MarkdownExtractor.Extract`: the concrete example `"# Hi\n\n- a\n- b\n"` is not stated as a lemma. The general lemmas about heading, list and paragraph steps cover it.
- `OcrExtractor.WordBlocksValid`, `OcrExtractor.ExtractValid` and `OcrExtractor.ScannedValid`: they require word confidences of at most 100. A larger Tesseract confidence would make pydantic reject the block (confidence at most 1), which the model does not express as an error.
