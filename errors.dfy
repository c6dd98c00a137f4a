/** The exceptions the system raises, as values. */
module Errors {
  datatype Error =
    /** FileNotFoundError for a path that does not exist. */
    | FileNotFound(path: string)
    /** ValueError from an extractor whose supported extensions do not include the file's. */
    | UnsupportedExtension(ext: string, supported: seq<string>)
    /** ValueError from the agent for an extension it has no extractor for. */
    | UnsupportedFileType(ext: string, supported: seq<string>)
    /** ValueError from the agent for an export format it has no converter for. */
    | UnsupportedExportFormat(format: string)
    /** ValueError from the agent when an operation needs a loaded document. */
    | NoDocumentLoaded
    /** ValueError for a string that names no text direction. */
    | InvalidDirection(value: string)
    /** A record field value rejected by the model's field constraints. */
    | ValidationError(field: string)
    /** An error raised inside a native parser or codec. */
    | NativeError(reason: string)
}
