/** The project handlers (server/controllers/projectController.js). Every
    query is scoped to the caller as owner. */
module Projects {
  import opened Common
  import opened Text
  import opened ProjectModel
  import opened Listing

  /** The fields of `req.body` that createProject reads; `None` is an absent key. */
  datatype ProjectRequest = ProjectRequest(
    name: Option<string>,
    client: Option<string>,
    status: Option<string>,
    deadline: Option<string>)

  function OrDefault(o: Option<string>, d: string): string
  {
    if o.Some? then o.value else d
  }

  /** The record createProject stores: owner the caller, name and client
      trimmed, the destructuring defaults, no notes and no architect. */
  function NewProject(req: ProjectRequest, caller: Id, now: int): (p: Project)
    requires req.name.Some?
    ensures p.owner == caller && p.architect.None? && p.notes == [] && p.createdAt == now
    ensures p.name == Trim(req.name.value)
    ensures p.client == Trim(OrDefault(req.client, DefaultClient))
    ensures p.status == OrDefault(req.status, DefaultStatus)
    ensures p.deadline == OrDefault(req.deadline, DefaultDeadline)
  {
    Project(caller, None, Trim(req.name.value), Trim(OrDefault(req.client, DefaultClient)),
            OrDefault(req.status, DefaultStatus), OrDefault(req.deadline, DefaultDeadline), [], now)
  }

  /** A name that is not blank gives a project the schema accepts. */
  lemma NewProjectValid(req: ProjectRequest, caller: Id, now: int)
    requires req.name.Some? && !IsBlank(req.name.value)
    ensures Valid(NewProject(req, caller, now))
  {
  }

  /** How the caller may see a stored project: only as its owner. */
  predicate Owned(store: map<Id, Project>, id: Id, caller: Id)
  {
    id in store && store[id].owner == caller
  }

  function CreatedKey(p: Project): Option<int>
  {
    Some(p.createdAt)
  }

  /** The string-typed keys of updateProject's body; `None` is an absent key
      or a value that is not a string. */
  datatype ProjectPatch = ProjectPatch(
    name: Option<string>,
    client: Option<string>,
    status: Option<string>,
    deadline: Option<string>,
    note: Option<string>)

  /** updateProject's field updates: name and client trimmed, status and
      deadline as given, and a non-blank note trimmed and put first. */
  function Patched(p: Project, u: ProjectPatch): Project
  {
    Project(
      p.owner, p.architect,
      if u.name.Some? then Trim(u.name.value) else p.name,
      if u.client.Some? then Trim(u.client.value) else p.client,
      OrDefault(u.status, p.status),
      OrDefault(u.deadline, p.deadline),
      if u.note.Some? && !IsBlank(u.note.value) then [Note(Trim(u.note.value))] + p.notes else p.notes,
      p.createdAt)
  }

  /** The save after updateProject fails (and answers 500) exactly when the
      patched name is empty, which the required `name` path refuses. */
  predicate SaveRejects(p: Project, u: ProjectPatch)
  {
    Patched(p, u).name == []
  }

  /** Owner, architect and creation time never change; each of the four
      fields changes only when the body names it, name and client to the
      trimmed value and status and deadline to the value as given; the notes only grow by one
      trimmed note in front, in their old order. */
  lemma PatchedFields(p: Project, u: ProjectPatch)
    ensures var q := Patched(p, u);
      && q.owner == p.owner && q.architect == p.architect && q.createdAt == p.createdAt
      && (u.name.None? ==> q.name == p.name)
      && (u.client.None? ==> q.client == p.client)
      && (u.status.None? ==> q.status == p.status)
      && (u.deadline.None? ==> q.deadline == p.deadline)
      && (u.name.Some? ==> q.name == Trim(u.name.value))
      && (u.client.Some? ==> q.client == Trim(u.client.value))
      && (u.status.Some? ==> q.status == u.status.value)
      && (u.deadline.Some? ==> q.deadline == u.deadline.value)
      && Trimmed(q.name) == (u.name.Some? || Trimmed(p.name))
      && (u.note.None? || IsBlank(u.note.value) ==> q.notes == p.notes)
      && (u.note.Some? && !IsBlank(u.note.value) ==>
            |q.notes| == |p.notes| + 1 && q.notes[0] == Note(Trim(u.note.value)) && q.notes[1..] == p.notes)
  {
  }

  /** A patch the save accepts keeps a valid project valid. */
  lemma PatchedValid(p: Project, u: ProjectPatch)
    requires Valid(p) && !SaveRejects(p, u)
    ensures Valid(Patched(p, u))
  {
    var q := Patched(p, u);
    forall k | 0 <= k < |q.notes| ensures NoteValid(q.notes[k]) {
      if u.note.Some? && !IsBlank(u.note.value) && k > 0 {
        assert q.notes[k] == p.notes[k - 1];
      }
    }
  }

  class ProjectController {
    var projects: map<Id, Project>

    constructor()
      ensures projects == map[]
    {
      projects := map[];
    }

    /** createProject: 400 for a missing or blank name; otherwise the new
        project is stored under `newId`. */
    method CreateProject(req: ProjectRequest, caller: Id, newId: Id, now: int) returns (r: Reply<Project>)
      requires newId !in projects
      modifies this
      ensures r.code == 400 <==> req.name.None? || IsBlank(req.name.value)
      ensures r.code == 400 ==> r.message == "Project name is required" && r.data.None? && projects == old(projects)
      ensures r.code != 400 ==> r.code == 201 && r.data == Some(NewProject(req, caller, now))
                                && projects == old(projects)[newId := NewProject(req, caller, now)]
    {
      if req.name.None? || req.name.value == [] || Trim(req.name.value) == [] {
        return Reply(400, "Project name is required", None);
      }
      var p := NewProject(req, caller, now);
      projects := projects[newId := p];
      return Reply(201, "", Some(p));
    }

    /** listProjects: exactly the caller's projects, newest first. */
    method ListProjects(caller: Id) returns (ids: seq<Id>)
      ensures forall id :: id in ids <==> Owned(projects, id, caller)
      ensures Distinct(ids)
      ensures NewestFirst(ids, Ranks(projects, CreatedKey))
    {
      ids := Select(projects, (p: Project) => p.owner == caller, CreatedKey);
    }

    /** getProject: a project of someone else is "not found" like a missing one. */
    method GetProject(id: Id, caller: Id) returns (r: Reply<Project>)
      ensures !Owned(projects, id, caller) ==> r.code == 404 && r.message == "Project not found" && r.data.None?
      ensures Owned(projects, id, caller) ==> r.code == 200 && r.data == Some(projects[id])
    {
      if id !in projects || projects[id].owner != caller {
        return Reply(404, "Project not found", None);
      }
      return Reply(200, "", Some(projects[id]));
    }

    /** updateProject: 404 unless owned; 500 when the save refuses the empty
        name; otherwise the patched project replaces the old one. */
    method UpdateProject(id: Id, caller: Id, u: ProjectPatch) returns (r: Reply<Project>)
      modifies this
      ensures !Owned(old(projects), id, caller) ==> r.code == 404 && r.message == "Project not found"
      ensures Owned(old(projects), id, caller) && SaveRejects(old(projects)[id], u)
              ==> r.code == 500 && r.message == "Server error"
      ensures r.code == 200 <==> Owned(old(projects), id, caller) && !SaveRejects(old(projects)[id], u)
      ensures r.code == 200 ==> projects == old(projects)[id := Patched(old(projects)[id], u)]
                                && r.data == Some(projects[id])
      ensures r.code != 200 ==> projects == old(projects) && r.data.None?
    {
      if id !in projects || projects[id].owner != caller {
        return Reply(404, "Project not found", None);
      }
      var p := projects[id];
      ghost var q := Patched(p, u);
      if u.name.Some? {
        p := p.(name := Trim(u.name.value));
      }
      assert p.name == q.name;
      if u.client.Some? {
        p := p.(client := Trim(u.client.value));
      }
      assert p.client == q.client;
      if u.status.Some? {
        p := p.(status := u.status.value);
      }
      if u.deadline.Some? {
        p := p.(deadline := u.deadline.value);
      }
      if u.note.Some? && Trim(u.note.value) != [] {
        p := p.(notes := [Note(Trim(u.note.value))] + p.notes);
      }
      assert p == q;
      if p.name == [] {
        return Reply(500, "Server error", None);
      }
      projects := projects[id := p];
      return Reply(200, "", Some(p));
    }

    /** deleteProject: 404 unless owned; otherwise only that project goes. */
    method DeleteProject(id: Id, caller: Id) returns (r: Reply<Project>)
      modifies this
      ensures !Owned(old(projects), id, caller) ==> r.code == 404 && r.message == "Project not found" && projects == old(projects)
      ensures Owned(old(projects), id, caller) ==> r.code == 200 && r.message == "Project deleted"
                                                     && projects == old(projects) - {id}
      ensures r.data.None?
    {
      if id !in projects || projects[id].owner != caller {
        return Reply(404, "Project not found", None);
      }
      projects := projects - {id};
      return Reply(200, "Project deleted", None);
    }
  }
}
