/**
 * The document agent: a small state machine that holds at most one loaded document and
 * the path it came from, chooses an extractor by file extension and a converter by
 * format name, and refuses every query and update while nothing is loaded.
 */
module Agent {
  import opened Wrappers
  import opened Strings
  import opened Seqs
  import opened Paths
  import opened Errors
  import opened DocumentModel
  import BaseExtractor
  import BaseConverter
  import PdfExtractor
  import DocxExtractor
  import PptxExtractor
  import XlsxExtractor
  import TextExtractor
  import MarkdownExtractor
  import OcrExtractor
  import HtmlConverter
  import MarkdownConverter

  // ---------------------------------------------------------------- extractor dispatch

  /** The extractor classes the agent can dispatch to. */
  datatype InputKind = PdfInput | DocxInput | PptxInput | XlsxInput | TextInput | MarkdownInput

  /** `EXTRACTOR_MAP`: lower-cased extension to extractor. */
  const ExtractorMap: map<string, InputKind> := map[
    ".pdf" := PdfInput, ".docx" := DocxInput, ".pptx" := PptxInput, ".xlsx" := XlsxInput,
    ".xlsm" := XlsxInput, ".txt" := TextInput, ".md" := MarkdownInput, ".markdown" := MarkdownInput]

  /** The keys of `EXTRACTOR_MAP` in insertion order, as `get_supported_input_formats` lists them. */
  const InputFormats: seq<string> := [".pdf", ".docx", ".pptx", ".xlsx", ".xlsm", ".txt", ".md", ".markdown"]

  /** The `SUPPORTED_EXTENSIONS` of each extractor class. */
  function ExtensionsOf(k: InputKind): seq<string> {
    match k
    case PdfInput => PdfExtractor.SupportedExtensions
    case DocxInput => DocxExtractor.SupportedExtensions
    case PptxInput => PptxExtractor.SupportedExtensions
    case XlsxInput => XlsxExtractor.SupportedExtensions
    case TextInput => TextExtractor.SupportedExtensions
    case MarkdownInput => MarkdownExtractor.SupportedExtensions
  }

  /** The input format list names each key of the map once. */
  lemma InputFormatsAreKeys()
    ensures forall e :: e in InputFormats <==> e in ExtractorMap
    ensures forall i, j :: 0 <= i < j < |InputFormats| ==> InputFormats[i] != InputFormats[j]
  {
  }

  /**
   * The agent's map and the extractors' own lists agree: an extension is sent to an
   * extractor exactly when that extractor declares it.
   */
  lemma ExtractorMapAgrees(k: InputKind, e: string)
    ensures e in ExtensionsOf(k) <==> e in ExtractorMap && ExtractorMap[e] == k
  {
  }

  /** No image extension is dispatched: images reach the OCR extractor only outside the agent. */
  lemma ImagesNotDispatched(e: string)
    requires e in OcrExtractor.SupportedExtensions
    ensures e !in ExtractorMap
  {
  }

  /**
   * The extractor chosen for a path that exists always passes its own `_validate_file`,
   * which its constructor runs again.
   */
  lemma DispatchValidates(path: string)
    requires LowerSuffix(path) in ExtractorMap
    ensures BaseExtractor.ValidateFile(path, true, ExtensionsOf(ExtractorMap[LowerSuffix(path)])) == Success(())
    ensures BaseExtractor.CanHandle(path, ExtensionsOf(ExtractorMap[LowerSuffix(path)]))
  {
    ExtractorMapAgrees(ExtractorMap[LowerSuffix(path)], LowerSuffix(path));
  }

  // ---------------------------------------------------------------- converter dispatch

  /** The converter classes the agent can dispatch to. */
  datatype OutputKind = HtmlOutput | DocxOutput | MarkdownOutput

  /** `CONVERTER_MAP`: lower-cased format name to converter; "md" is an alias of "markdown". */
  const ConverterMap: map<string, OutputKind> := map[
    "html" := HtmlOutput, "docx" := DocxOutput, "markdown" := MarkdownOutput, "md" := MarkdownOutput]

  /** `get_supported_output_formats`: the set of the converter map's keys. */
  function OutputFormats(): (r: set<string>)
    ensures forall f :: f in r <==> f in ConverterMap
  {
    ConverterMap.Keys
  }

  /** The bytes of the DOCX package the python-docx converter writes; the converter is not part of this model. */
  const DocxConvert: (Document, bool) -> string

  /** The keyword options each converter class accepts, with the constructors' defaults below. */
  datatype ExportOptions = ExportOptions(html: HtmlConverter.HtmlOptions, markdown: MarkdownConverter.MarkdownOptions,
                                         docxEmbedImages: bool)

  const DefaultOptions := ExportOptions(HtmlConverter.HtmlOptions(true, true), MarkdownConverter.MarkdownOptions(true, false), true)

  /** What an export gives back: the converted text, or the path it was written to together with that text. */
  datatype Output = Content(text: string) | Saved(path: string, text: string)

  /** `convert()` of the chosen converter. */
  function Render(k: OutputKind, d: Document, opts: ExportOptions): string {
    match k
    case HtmlOutput => HtmlConverter.ConvertSpec(d, opts.html)
    case DocxOutput => DocxConvert(d, opts.docxEmbedImages)
    case MarkdownOutput => MarkdownConverter.ConvertSpec(d, opts.markdown)
  }

  /** `save(path)` for a non-empty path, else the converted text itself. */
  function Deliver(content: string, outputPath: Option<string>): (r: Output)
    ensures r.text == content
    ensures r.Saved? <==> Truthy(outputPath)
  {
    if Truthy(outputPath) then Saved(outputPath.value, content) else Content(content)
  }

  /** `export` on the agent's current document. */
  function ExportResult(doc: Option<Document>, format: string, outputPath: Option<string>, opts: ExportOptions)
    : Result<Output, Error>
  {
    if doc.None? then Failure(NoDocumentLoaded)
    else if Lower(format) !in ConverterMap then Failure(UnsupportedExportFormat(Lower(format)))
    else Success(Deliver(Render(ConverterMap[Lower(format)], doc.value, opts), outputPath))
  }

  /**
   * Export fails first for a missing document and then for a format whose lower-cased
   * name is not a converter key; otherwise it yields the chosen converter's output.
   */
  lemma ExportOutcome(doc: Option<Document>, format: string, outputPath: Option<string>, opts: ExportOptions)
    ensures doc.None? ==> ExportResult(doc, format, outputPath, opts) == Failure(NoDocumentLoaded)
    ensures doc.Some? ==> (ExportResult(doc, format, outputPath, opts).Success? <==> Lower(format) in OutputFormats())
    ensures doc.Some? && Lower(format) !in OutputFormats() ==>
      ExportResult(doc, format, outputPath, opts) == Failure(UnsupportedExportFormat(Lower(format)))
  {
  }

  /** The format name is case-insensitive. */
  lemma ExportIgnoresCase(doc: Option<Document>, format: string, outputPath: Option<string>, opts: ExportOptions)
    ensures ExportResult(doc, format, outputPath, opts) == ExportResult(doc, Lower(format), outputPath, opts)
  {
    LowerIdempotent(format);
  }

  /** A name without upper-case letters is its own lower-case form. */
  lemma LowerOfLowercase(s: string)
    requires forall i :: 0 <= i < |s| ==> !IsAsciiUpper(s[i])
    ensures Lower(s) == s
  {
  }

  /** Exporting under a lower-case converter key. */
  lemma ExportByKey(doc: Option<Document>, f: string, outputPath: Option<string>, opts: ExportOptions)
    requires f in ConverterMap && forall i :: 0 <= i < |f| ==> !IsAsciiUpper(f[i])
    ensures ExportResult(doc, f, outputPath, opts) ==
      if doc.None? then Failure(NoDocumentLoaded) else Success(Deliver(Render(ConverterMap[f], doc.value, opts), outputPath))
  {
    LowerOfLowercase(f);
  }

  /** "md" and "markdown", in any case, give the same Markdown text. */
  lemma MarkdownAliases(d: Document, f: string, g: string, outputPath: Option<string>, opts: ExportOptions)
    requires Lower(f) == "md" && Lower(g) == "markdown"
    ensures ExportResult(Some(d), f, outputPath, opts) == ExportResult(Some(d), g, outputPath, opts)
    ensures ExportResult(Some(d), f, outputPath, opts).value.text == MarkdownConverter.ConvertSpec(d, opts.markdown)
  {
  }

  /** "json", in any case, is not an export format: JSON goes only through `export_to_json`. */
  lemma JsonNotExported(d: Document, f: string, outputPath: Option<string>, opts: ExportOptions)
    requires Lower(f) == "json"
    ensures ExportResult(Some(d), f, outputPath, opts) == Failure(UnsupportedExportFormat("json"))
  {
    assert "json" !in ConverterMap;
  }

  /** Saving writes exactly the text that exporting without a path returns, and answers with the path. */
  lemma SaveWritesConvertOutput(doc: Option<Document>, format: string, p: string, opts: ExportOptions)
    requires p != ""
    ensures ExportResult(doc, format, Some(p), opts).Success? <==> ExportResult(doc, format, None, opts).Success?
    ensures ExportResult(doc, format, Some(p), opts).Success? ==>
      ExportResult(doc, format, Some(p), opts) == Success(Saved(p, ExportResult(doc, format, None, opts).value.text))
  {
  }

  /** Pydantic's JSON encoder at a given indent; not part of this model. */
  const ToJson: (Document, int) -> string

  /** `export_to_json`: the JSON text, or the path it was written to. */
  function JsonExportResult(doc: Option<Document>, outputPath: Option<string>, indent: int): (r: Result<Output, Error>)
    ensures doc.None? <==> r == Failure(NoDocumentLoaded)
    ensures r.Success? ==> r.value.text == ToJson(doc.value, indent) && (r.value.Saved? <==> Truthy(outputPath))
  {
    if doc.None? then Failure(NoDocumentLoaded) else Success(Deliver(ToJson(doc.value, indent), outputPath))
  }

  // ---------------------------------------------------------------- updates and summaries

  /** `set_title`: the document title and the metadata title both become `t`; nothing else changes. */
  function Titled(d: Document, t: string): (r: Document)
    ensures r.title == Some(t) && r.metadata.title == Some(t)
    ensures r.pages == d.pages && r.direction == d.direction
    ensures r.metadata == d.metadata.(title := Some(t))
  {
    d.(title := Some(t), metadata := d.metadata.(title := Some(t)))
  }

  /** After `set_title(t)` with a non-empty `t`, every converter names its output file after `t`. */
  lemma TitleNamesOutput(d: Document, t: string)
    requires t != ""
    ensures BaseConverter.NameSource(Titled(d, t), None) == t
  {
  }

  /** The value of each `TextDirection` member. */
  function DirectionValue(d: TextDirection): string {
    match d
    case LTR => "ltr"
    case RTL => "rtl"
    case AUTO => "auto"
  }

  /** `TextDirection(value)`: the member with that exact value, if any. */
  function ParseDirection(s: string): (r: Option<TextDirection>)
    ensures r.Some? ==> DirectionValue(r.value) == s
    ensures r.None? <==> s != "ltr" && s != "rtl" && s != "auto"
  {
    if s == "ltr" then Some(LTR) else if s == "rtl" then Some(RTL) else if s == "auto" then Some(AUTO) else None
  }

  /** Every direction's value parses back to it. */
  lemma DirectionRoundTrip(d: TextDirection)
    ensures ParseDirection(DirectionValue(d)) == Some(d)
  {
  }

  /** The dictionary `get_summary` returns. */
  datatype Summary = Summary(title: Option<string>, pageCount: nat, totalBlocks: nat, imageCount: nat,
                             tableCount: nat, linkCount: nat, direction: string,
                             sourceFormat: Option<string>, sourceFilename: Option<string>)

  function SummaryOf(d: Document): Summary {
    Summary(d.title, |d.pages|, TotalBlocks(d.pages), |GetAllImages(d)|, |GetAllTables(d)|, |GetAllLinks(d)|,
            DirectionValue(d.direction), d.metadata.sourceFormat, d.metadata.sourceFilename)
  }

  lemma {:induction false} DisjointFilters<T(!new)>(s: seq<T>, p: T -> bool, q: T -> bool)
    requires forall x :: !(p(x) && q(x))
    ensures |Filter(s, p)| + |Filter(s, q)| <= |s|
  {
    if |s| > 0 {
      DisjointFilters(s[1..], p, q);
    }
  }

  /**
   * The summary counts agree with the document: the block total is the number of blocks,
   * and images and tables are distinct blocks, so together they number at most the total.
   */
  lemma SummaryCounts(d: Document)
    ensures SummaryOf(d).totalBlocks == |AllBlocks(d.pages)|
    ensures SummaryOf(d).imageCount + SummaryOf(d).tableCount <= SummaryOf(d).totalBlocks
    ensures SummaryOf(d).imageCount == |Filter(AllBlocks(d.pages), (b: Block) => b.ImageBlock?)|
    ensures SummaryOf(d).tableCount == |Filter(AllBlocks(d.pages), (b: Block) => b.TableBlock?)|
  {
    GetAllImagesSpec(d);
    GetAllTablesSpec(d);
    DisjointFilters(AllBlocks(d.pages), (b: Block) => b.ImageBlock?, (b: Block) => b.TableBlock?);
  }

  /** The `repr` of a title, where Python renders a missing one as "None". */
  function TitleText(t: Option<string>): string {
    if t.Some? then t.value else "None"
  }

  /** Pydantic's decoders; not part of this model. */
  type Dict
  const FromJson: string -> Result<Document, Error>
  const FromDict: Dict -> Result<Document, Error>

  // ---------------------------------------------------------------- the agent

  class DocumentAgent {
    /** The loaded document, if any. */
    var document: Option<Document>
    /** The path the loaded document was extracted from, if it came from a file. */
    var sourcePath: Option<string>

    constructor()
      ensures document.None? && sourcePath.None?
    {
      document := None;
      sourcePath := None;
    }

    /** The `document` property setter. */
    method SetDocument(d: Document)
      modifies this
      ensures document == Some(d) && sourcePath == old(sourcePath)
    {
      document := Some(d);
    }

    /**
     * `load`: a missing file fails before the extension is looked at; an extension with no
     * extractor fails naming the supported ones; otherwise the chosen extractor validates
     * the path again and extracts. Only a successful extraction changes the state.
     */
    method Load(path: string, fileExists: bool, extract: (InputKind, string) -> Result<Document, Error>)
      returns (r: Result<Document, Error>)
      modifies this
      ensures !fileExists ==> r == Failure(FileNotFound(path))
      ensures fileExists && LowerSuffix(path) !in ExtractorMap ==>
        r == Failure(UnsupportedFileType(LowerSuffix(path), InputFormats))
      ensures fileExists && LowerSuffix(path) in ExtractorMap ==> r == extract(ExtractorMap[LowerSuffix(path)], path)
      ensures r.Success? ==> document == Some(r.value) && sourcePath == Some(path)
      ensures r.Failure? ==> document == old(document) && sourcePath == old(sourcePath)
    {
      if !fileExists {
        return Failure(FileNotFound(path));
      }
      var ext := LowerSuffix(path);
      if ext !in ExtractorMap {
        return Failure(UnsupportedFileType(ext, InputFormats));
      }
      var kind := ExtractorMap[ext];
      var valid := BaseExtractor.ValidateFile(path, fileExists, ExtensionsOf(kind));
      DispatchValidates(path);
      if valid.Failure? {
        assert false;
        return Failure(FileNotFound(path));
      }
      r := extract(kind, path);
      if r.Success? {
        document := Some(r.value);
        sourcePath := Some(path);
      }
    }

    /** `load_from_json`: the decoded document replaces the loaded one; the source path is kept. */
    method LoadFromJson(json: string) returns (r: Result<Document, Error>)
      modifies this
      ensures r == FromJson(json)
      ensures r.Success? ==> document == Some(r.value)
      ensures r.Failure? ==> document == old(document)
      ensures sourcePath == old(sourcePath)
    {
      r := FromJson(json);
      if r.Success? {
        document := Some(r.value);
      }
    }

    /** `load_from_dict`: as `load_from_json`, from an already parsed dictionary. */
    method LoadFromDict(data: Dict) returns (r: Result<Document, Error>)
      modifies this
      ensures r == FromDict(data)
      ensures r.Success? ==> document == Some(r.value)
      ensures r.Failure? ==> document == old(document)
      ensures sourcePath == old(sourcePath)
    {
      r := FromDict(data);
      if r.Success? {
        document := Some(r.value);
      }
    }

    /** `export`: see `ExportResult` and the lemmas after it. */
    method Export(format: string, outputPath: Option<string>, opts: ExportOptions) returns (r: Result<Output, Error>)
      ensures r == ExportResult(document, format, outputPath, opts)
    {
      if document.None? {
        return Failure(NoDocumentLoaded);
      }
      var fmt := Lower(format);
      if fmt !in ConverterMap {
        return Failure(UnsupportedExportFormat(fmt));
      }
      var content: string;
      match ConverterMap[fmt] {
        case HtmlOutput =>
          content := HtmlConverter.Convert(document.value, opts.html);
        case DocxOutput =>
          content := DocxConvert(document.value, opts.docxEmbedImages);
        case MarkdownOutput =>
          content := MarkdownConverter.Convert(document.value, opts.markdown);
      }
      r := Success(Deliver(content, outputPath));
    }

    /** `export_to_html`: HTML with the given style and image options. */
    method ExportToHtml(outputPath: Option<string>, includeStyles: bool, embedImages: bool)
      returns (r: Result<Output, Error>)
      ensures document.None? ==> r == Failure(NoDocumentLoaded)
      ensures document.Some? ==> r == Success(Deliver(
        HtmlConverter.ConvertSpec(document.value, HtmlConverter.HtmlOptions(includeStyles, embedImages)), outputPath))
    {
      var opts := DefaultOptions.(html := HtmlConverter.HtmlOptions(includeStyles, embedImages));
      ExportByKey(document, "html", outputPath, opts);
      r := Export("html", outputPath, opts);
    }

    /** `export_to_docx`: the DOCX package, embedding images or not. */
    method ExportToDocx(outputPath: Option<string>, embedImages: bool) returns (r: Result<Output, Error>)
      ensures document.None? ==> r == Failure(NoDocumentLoaded)
      ensures document.Some? ==> r == Success(Deliver(DocxConvert(document.value, embedImages), outputPath))
    {
      var opts := DefaultOptions.(docxEmbedImages := embedImages);
      ExportByKey(document, "docx", outputPath, opts);
      r := Export("docx", outputPath, opts);
    }

    /** `export_to_markdown`: Markdown with the given frontmatter and image options. */
    method ExportToMarkdown(outputPath: Option<string>, includeFrontmatter: bool, embedImages: bool)
      returns (r: Result<Output, Error>)
      ensures document.None? ==> r == Failure(NoDocumentLoaded)
      ensures document.Some? ==> r == Success(Deliver(
        MarkdownConverter.ConvertSpec(document.value, MarkdownConverter.MarkdownOptions(includeFrontmatter, embedImages)),
        outputPath))
    {
      var opts := DefaultOptions.(markdown := MarkdownConverter.MarkdownOptions(includeFrontmatter, embedImages));
      ExportByKey(document, "markdown", outputPath, opts);
      r := Export("markdown", outputPath, opts);
    }

    /** `export_to_json`. */
    method ExportToJson(outputPath: Option<string>, indent: int) returns (r: Result<Output, Error>)
      ensures r == JsonExportResult(document, outputPath, indent)
    {
      if document.None? {
        return Failure(NoDocumentLoaded);
      }
      var json := ToJson(document.value, indent);
      if Truthy(outputPath) {
        r := Success(Saved(outputPath.value, json));
      } else {
        r := Success(Content(json));
      }
    }

    /** `get_text`. */
    method GetText() returns (r: Result<string, Error>)
      ensures document.None? <==> r == Failure(NoDocumentLoaded)
      ensures document.Some? ==> r == Success(GetAllText(document.value))
    {
      if document.None? {
        return Failure(NoDocumentLoaded);
      }
      r := Success(GetAllText(document.value));
    }

    /** `get_links`. */
    method GetLinks() returns (r: Result<seq<Link>, Error>)
      ensures document.None? <==> r == Failure(NoDocumentLoaded)
      ensures document.Some? ==> r == Success(GetAllLinks(document.value))
    {
      if document.None? {
        return Failure(NoDocumentLoaded);
      }
      r := Success(GetAllLinks(document.value));
    }

    /** `get_images`. */
    method GetImages() returns (r: Result<seq<Block>, Error>)
      ensures document.None? <==> r == Failure(NoDocumentLoaded)
      ensures document.Some? ==> r == Success(GetAllImages(document.value))
    {
      if document.None? {
        return Failure(NoDocumentLoaded);
      }
      r := Success(GetAllImages(document.value));
    }

    /** `get_tables`. */
    method GetTables() returns (r: Result<seq<Block>, Error>)
      ensures document.None? <==> r == Failure(NoDocumentLoaded)
      ensures document.Some? ==> r == Success(GetAllTables(document.value))
    {
      if document.None? {
        return Failure(NoDocumentLoaded);
      }
      r := Success(GetAllTables(document.value));
    }

    /** `get_metadata`. */
    method GetMetadata() returns (r: Result<Metadata, Error>)
      ensures document.None? <==> r == Failure(NoDocumentLoaded)
      ensures document.Some? ==> r == Success(document.value.metadata)
    {
      if document.None? {
        return Failure(NoDocumentLoaded);
      }
      r := Success(document.value.metadata);
    }

    /** `set_title`: see `Titled`. */
    method SetTitle(t: string) returns (r: Result<(), Error>)
      modifies this
      ensures old(document).None? ==> r == Failure(NoDocumentLoaded) && document == old(document)
      ensures old(document).Some? ==> r == Success(()) && document == Some(Titled(old(document).value, t))
      ensures sourcePath == old(sourcePath)
    {
      if document.None? {
        return Failure(NoDocumentLoaded);
      }
      var d := document.value;
      document := Some(d.(title := Some(t), metadata := d.metadata.(title := Some(t))));
      r := Success(());
    }

    /** `set_direction`: the direction named by `value`; any other string is rejected and nothing changes. */
    method SetDirection(value: string) returns (r: Result<(), Error>)
      modifies this
      ensures old(document).None? ==> r == Failure(NoDocumentLoaded)
      ensures old(document).Some? ==> (r.Success? <==> ParseDirection(value).Some?)
      ensures old(document).Some? && r.Failure? ==> r == Failure(InvalidDirection(value))
      ensures r.Success? ==> document == Some(old(document).value.(direction := ParseDirection(value).value))
      ensures r.Failure? ==> document == old(document)
      ensures sourcePath == old(sourcePath)
    {
      if document.None? {
        return Failure(NoDocumentLoaded);
      }
      var dir := ParseDirection(value);
      if dir.None? {
        return Failure(InvalidDirection(value));
      }
      document := Some(document.value.(direction := dir.value));
      r := Success(());
    }

    /** `get_summary`: see `SummaryOf` and `SummaryCounts`. */
    method GetSummary() returns (r: Result<Summary, Error>)
      ensures document.None? <==> r == Failure(NoDocumentLoaded)
      ensures document.Some? ==> r == Success(SummaryOf(document.value))
    {
      if document.None? {
        return Failure(NoDocumentLoaded);
      }
      var d := document.value;
      var images := GetImages();
      var tables := GetTables();
      var links := GetLinks();
      r := Success(Summary(d.title, |d.pages|, TotalBlocks(d.pages), |images.value|, |tables.value|, |links.value|,
                           DirectionValue(d.direction), d.metadata.sourceFormat, d.metadata.sourceFilename));
    }

    /** `__repr__`. */
    method Repr() returns (s: string)
      ensures document.None? ==> s == "DocumentAgent(no document loaded)"
      ensures document.Some? ==> s == "DocumentAgent(document='" + TitleText(document.value.title) + "')"
    {
      if document.None? {
        return "DocumentAgent(no document loaded)";
      }
      s := "DocumentAgent(document='" + TitleText(document.value.title) + "')";
    }
  }
}
