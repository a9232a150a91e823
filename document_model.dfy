/** The document schema (server/models/Document.js). Records use the field
    names the document controller writes: `uploader` and `public` where the
    schema says `uploadedBy` and `isPublic`. */
module DocumentModel {
  import opened Common
  import opened Text

  datatype DocType = Blueprint | License | Contract | Report | Other

  function TypeName(t: DocType): string
  {
    match t
    case Blueprint => "blueprint"
    case License => "license"
    case Contract => "contract"
    case Report => "report"
    case Other => "other"
  }

  const DefaultMimeType: string := "application/octet-stream"
  const DefaultVersion: int := 1
  const DefaultPublic: bool := false

  /** A stored document. `docType` is the `type` path (a Dafny keyword);
      `version` is absent on records written without one; `createdAt` is the
      creation time stamp listings sort by. */
  datatype Document = Document(
    name: Option<string>,
    docType: DocType,
    fileUrl: Option<string>,
    fileSize: Option<int>,
    mimeType: string,
    project: Id,
    uploader: Id,
    description: Option<string>,
    version: Option<int>,
    public: bool,
    createdAt: int)

  /** The schema's rules: a trimmed name of at least 3 characters and a file
      URL (a required string must not be empty); the type is one of the five
      enum values by its type; `project` and the uploader are present. */
  predicate Valid(d: Document)
  {
    && d.name.Some? && Trimmed(d.name.value) && |d.name.value| >= 3
    && Truthy(d.fileUrl)
    && (d.description.None? || Trimmed(d.description.value))
  }

  /** `document.version || 1`: an absent (or zero) version reads as 1. */
  function StoredVersion(d: Document): (v: int)
    ensures d.version.None? ==> v == 1
    ensures d.version.Some? && d.version.value != 0 ==> v == d.version.value
    ensures d.version == Some(0) ==> v == 1
  {
    if d.version.Some? && d.version.value != 0 then d.version.value else 1
  }
}
