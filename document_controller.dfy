/** The document handlers (server/controllers/documentController.js) over an
    in-memory document store. The project store they consult is a parameter. */
module Documents {
  import opened Common
  import opened DocumentModel
  import ProjectModel
  import opened Listing

  /** The message of the TypeError raised by reading `architect` of the
      `null` that findById gives for a missing project. */
  const NullProjectMessage: string := "Cannot read properties of null (reading 'architect')"

  /** The fields of `req.body` that uploadDocument reads. */
  datatype UploadRequest = UploadRequest(
    name: Option<string>,
    docType: Option<DocType>,
    projectId: Id,
    fileUrl: Option<string>,
    public: Option<bool>)

  /** The record uploadDocument builds: `type || 'other'`, `public || false`,
      version 1, the caller as uploader and the generic MIME type. */
  function NewDocument(req: UploadRequest, caller: Id, now: int): (d: Document)
    ensures d.uploader == caller && d.project == req.projectId
    ensures d.name == req.name && d.fileUrl == req.fileUrl
    ensures d.docType == (if req.docType.Some? then req.docType.value else Other)
    ensures d.public <==> req.public == Some(true)
    ensures d.version == Some(DefaultVersion) && d.mimeType == DefaultMimeType
    ensures d.fileSize.None? && d.description.None? && d.createdAt == now
  {
    Document(
      req.name, if req.docType.Some? then req.docType.value else Other, req.fileUrl, None,
      DefaultMimeType, req.projectId, caller, None, Some(DefaultVersion),
      req.public.Some? && req.public.value, now)
  }

  /** A new document with a name the schema accepts and a file URL satisfies
      the schema and reads as version 1. */
  lemma NewDocumentValid(req: UploadRequest, caller: Id, now: int)
    requires req.name.Some? && Text.Trimmed(req.name.value) && |req.name.value| >= 3 && Truthy(req.fileUrl)
    ensures Valid(NewDocument(req, caller, now))
    ensures StoredVersion(NewDocument(req, caller, now)) == 1
  {
  }

  /** The getDocuments filter: only the optional project and type values,
      nothing about the caller. */
  predicate Matches(d: Document, projectId: Option<string>, docType: Option<string>)
  {
    && (Truthy(projectId) ==> d.project == projectId.value)
    && (Truthy(docType) ==> TypeName(d.docType) == docType.value)
  }

  function CreatedKey(d: Document): Option<int>
  {
    Some(d.createdAt)
  }

  ghost predicate Listed(all: seq<Id>, store: map<Id, Document>, projectId: Option<string>, docType: Option<string>)
  {
    && (forall id :: id in all <==> id in store && Matches(store[id], projectId, docType))
    && Distinct(all)
    && NewestFirst(all, Ranks(store, CreatedKey))
  }

  /** Without filters every stored document is listed, whoever asks. */
  lemma UnfilteredListsAll(store: map<Id, Document>, all: seq<Id>)
    requires Listed(all, store, None, None)
    ensures forall id :: id in store ==> id in all
    ensures |all| == |store|
  {
    DistinctCardinality(all);
    assert (set x | x in all) == store.Keys;
    assert |store| == |store.Keys|;
  }

  /** The keys of `req.body` that `Object.assign` copies onto a document. */
  datatype DocumentPatch = DocumentPatch(
    name: Option<string>,
    docType: Option<DocType>,
    fileUrl: Option<string>,
    fileSize: Option<int>,
    mimeType: Option<string>,
    project: Option<Id>,
    uploader: Option<Id>,
    description: Option<string>,
    version: Option<int>,
    public: Option<bool>,
    createdAt: Option<int>)

  function Pick<T>(patch: Option<T>, current: T): T
  {
    if patch.Some? then patch.value else current
  }

  function PickOpt<T>(patch: Option<T>, current: Option<T>): Option<T>
  {
    if patch.Some? then patch else current
  }

  /** `Object.assign(document, patch)`: every key of the patch overwrites its
      field, every other field keeps its value. */
  function Assign(d: Document, p: DocumentPatch): (r: Document)
    ensures p.name.Some? ==> r.name == p.name
    ensures p.name.None? ==> r.name == d.name
    ensures p.docType.Some? ==> r.docType == p.docType.value
    ensures p.docType.None? ==> r.docType == d.docType
    ensures p.fileUrl.Some? ==> r.fileUrl == p.fileUrl
    ensures p.fileUrl.None? ==> r.fileUrl == d.fileUrl
    ensures p.fileSize.Some? ==> r.fileSize == p.fileSize
    ensures p.fileSize.None? ==> r.fileSize == d.fileSize
    ensures p.mimeType.Some? ==> r.mimeType == p.mimeType.value
    ensures p.mimeType.None? ==> r.mimeType == d.mimeType
    ensures p.project.Some? ==> r.project == p.project.value
    ensures p.project.None? ==> r.project == d.project
    ensures p.uploader.Some? ==> r.uploader == p.uploader.value
    ensures p.uploader.None? ==> r.uploader == d.uploader
    ensures p.description.Some? ==> r.description == p.description
    ensures p.description.None? ==> r.description == d.description
    ensures p.version.Some? ==> r.version == p.version
    ensures p.version.None? ==> r.version == d.version
    ensures p.public.Some? ==> r.public == p.public.value
    ensures p.public.None? ==> r.public == d.public
    ensures p.createdAt.Some? ==> r.createdAt == p.createdAt.value
    ensures p.createdAt.None? ==> r.createdAt == d.createdAt
  {
    Document(
      PickOpt(p.name, d.name), Pick(p.docType, d.docType), PickOpt(p.fileUrl, d.fileUrl),
      PickOpt(p.fileSize, d.fileSize), Pick(p.mimeType, d.mimeType), Pick(p.project, d.project),
      Pick(p.uploader, d.uploader), PickOpt(p.description, d.description), PickOpt(p.version, d.version),
      Pick(p.public, d.public), Pick(p.createdAt, d.createdAt))
  }

  /** A significant change: a truthy file URL other than the stored one. */
  predicate Bumps(d: Document, p: DocumentPatch)
  {
    Truthy(p.fileUrl) && p.fileUrl != d.fileUrl
  }

  /** updateDocument's new record: bump the version on a significant change,
      then copy the body over it (so a `version` in the body wins). */
  function Updated(d: Document, p: DocumentPatch): Document
  {
    var bumped := if Bumps(d, p) then d.(version := Some(StoredVersion(d) + 1)) else d;
    Assign(bumped, p)
  }

  /** Without a `version` key the stored version changes exactly on a
      significant change, and then to one more than it read as. */
  lemma UpdatedVersion(d: Document, p: DocumentPatch)
    requires p.version.None?
    ensures Updated(d, p).version != d.version <==> Bumps(d, p)
    ensures Bumps(d, p) ==> Updated(d, p).version == Some(StoredVersion(d) + 1)
  {
  }

  /** A body naming neither `fileUrl` nor `version` leaves the version alone. */
  lemma UpdatedKeepsVersion(d: Document, p: DocumentPatch)
    requires p.fileUrl.None? && p.version.None?
    ensures Updated(d, p).version == d.version
  {
  }

  /** Besides the version, a body changes exactly the fields it names. */
  lemma UpdatedOtherFields(d: Document, p: DocumentPatch)
    ensures Updated(d, p).(version := d.version) == Assign(d, p).(version := d.version)
  {
  }

  /** What getDocumentVersions reports. */
  datatype VersionInfo = VersionInfo(id: Id, name: Option<string>, version: int, uploader: Id)

  class DocumentController {
    var documents: map<Id, Document>

    constructor()
      ensures documents == map[]
    {
      documents := map[];
    }

    /** uploadDocument: 404 for an unknown project, 400 when it has no
        architect, 403 for a caller who is neither architect nor client. */
    method UploadDocument(req: UploadRequest, caller: Id, projects: map<Id, ProjectModel.Project>, newId: Id, now: int)
      returns (r: Reply<Document>)
      requires newId !in documents
      modifies this
      ensures req.projectId !in projects ==> r.code == 404 && r.message == "Project not found"
      ensures req.projectId in projects && ProjectModel.MembershipOf(projects[req.projectId], caller) == ProjectModel.NoArchitect
              ==> r.code == 400 && r.message == TypeErrorMessage
      ensures req.projectId in projects && ProjectModel.MembershipOf(projects[req.projectId], caller) == ProjectModel.Outsider
              ==> r.code == 403 && r.message == "Not authorized to upload documents for this project"
      ensures r.code == 201 <==> req.projectId in projects && ProjectModel.MembershipOf(projects[req.projectId], caller) == ProjectModel.Member
      ensures r.code == 201 ==> r.data == Some(NewDocument(req, caller, now))
                                && documents == old(documents)[newId := NewDocument(req, caller, now)]
      ensures r.code != 201 ==> r.data.None? && documents == old(documents)
    {
      if req.projectId !in projects {
        return Reply(404, "Project not found", None);
      }
      match ProjectModel.MembershipOf(projects[req.projectId], caller)
      case NoArchitect =>
        return Reply(400, TypeErrorMessage, None);
      case Outsider =>
        return Reply(403, "Not authorized to upload documents for this project", None);
      case Member =>
        var d := NewDocument(req, caller, now);
        documents := documents[newId := d];
        return Reply(201, "Document uploaded successfully", Some(d));
    }

    /** getDocuments: every matching document, newest first, one page. */
    method GetDocuments(projectId: Option<string>, docType: Option<string>, page: nat := 1, limit: nat := 100)
      returns (p: Page)
      requires page >= 1 && limit >= 1
      ensures exists all :: Listed(all, documents, projectId, docType) && p == Paginate(all, page, limit)
    {
      var all := Select(documents, (d: Document) => Matches(d, projectId, docType), CreatedKey);
      p := Paginate(all, page, limit);
      assert Listed(all, documents, projectId, docType);
    }

    /** getDocumentById: 404 first; a public document is readable by anyone,
        any other only by the project's architect or client. */
    method GetDocumentById(id: Id, caller: Id, projects: map<Id, ProjectModel.Project>) returns (r: Reply<Document>)
      ensures id !in documents ==> r.code == 404 && r.message == "Document not found"
      ensures id in documents && documents[id].public ==> r.code == 200
      ensures id in documents && !documents[id].public && documents[id].project !in projects
              ==> r.code == 400 && r.message == NullProjectMessage
      ensures id in documents && !documents[id].public && documents[id].project in projects ==>
                match ProjectModel.MembershipOf(projects[documents[id].project], caller)
                case NoArchitect => r.code == 400 && r.message == TypeErrorMessage
                case Outsider => r.code == 403 && r.message == "Not authorized to view this document"
                case Member => r.code == 200
      ensures r.code == 200 <==> r.data.Some?
      ensures r.code == 200 ==> id in documents && r.data == Some(documents[id])
    {
      if id !in documents {
        return Reply(404, "Document not found", None);
      }
      var d := documents[id];
      if !d.public {
        if d.project !in projects {
          return Reply(400, NullProjectMessage, None);
        }
        match ProjectModel.MembershipOf(projects[d.project], caller)
        case NoArchitect =>
          return Reply(400, TypeErrorMessage, None);
        case Outsider =>
          return Reply(403, "Not authorized to view this document", None);
        case Member =>
      }
      return Reply(200, "", Some(d));
    }

    /** updateDocument: only the uploader may update; see `Updated`. */
    method UpdateDocument(id: Id, caller: Id, patch: DocumentPatch) returns (r: Reply<Document>)
      modifies this
      ensures id !in old(documents) ==> r.code == 404 && r.message == "Document not found"
      ensures id in old(documents) && old(documents)[id].uploader != caller
              ==> r.code == 403 && r.message == "Not authorized to update this document"
      ensures r.code == 200 <==> id in old(documents) && old(documents)[id].uploader == caller
      ensures r.code == 200 ==> documents == old(documents)[id := Updated(old(documents)[id], patch)]
                                && r.data == Some(documents[id])
      ensures r.code != 200 ==> documents == old(documents) && r.data.None?
    {
      if id !in documents {
        return Reply(404, "Document not found", None);
      }
      var d := documents[id];
      if d.uploader != caller {
        return Reply(403, "Not authorized to update this document", None);
      }
      if Truthy(patch.fileUrl) && patch.fileUrl != d.fileUrl {
        d := d.(version := Some(StoredVersion(d) + 1));
      }
      d := Assign(d, patch);
      documents := documents[id := d];
      return Reply(200, "Document updated successfully", Some(d));
    }

    /** deleteDocument: only the uploader may delete, and only that document goes. */
    method DeleteDocument(id: Id, caller: Id) returns (r: Reply<Document>)
      modifies this
      ensures id !in old(documents) ==> r.code == 404 && r.message == "Document not found"
      ensures id in old(documents) && old(documents)[id].uploader != caller
              ==> r.code == 403 && r.message == "Not authorized to delete this document"
      ensures r.code == 200 <==> id in old(documents) && old(documents)[id].uploader == caller
      ensures r.code == 200 ==> documents == old(documents) - {id}
      ensures r.code != 200 ==> documents == old(documents)
      ensures r.data.None?
    {
      if id !in documents {
        return Reply(404, "Document not found", None);
      }
      if documents[id].uploader != caller {
        return Reply(403, "Not authorized to delete this document", None);
      }
      documents := documents - {id};
      return Reply(200, "Document deleted successfully", None);
    }

    /** getDocumentVersions: no caller, so no authorization; an absent version reads as 1. */
    method GetDocumentVersions(id: Id) returns (r: Reply<VersionInfo>)
      ensures id !in documents ==> r.code == 404 && r.message == "Document not found" && r.data.None?
      ensures id in documents ==> r.code == 200 && r.data.Some?
      ensures id in documents ==> var d := documents[id];
                r.data.value == VersionInfo(id, d.name, StoredVersion(d), d.uploader)
    {
      if id !in documents {
        return Reply(404, "Document not found", None);
      }
      var d := documents[id];
      return Reply(200, "", Some(VersionInfo(id, d.name, StoredVersion(d), d.uploader)));
    }
  }
}
