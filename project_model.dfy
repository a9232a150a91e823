/** The project schema (server/models/Project.js) with its nested note schema.
    The schema declares an `owner` id and a `client` string; the meeting and
    document controllers also read `architect`, which the schema lacks, so the
    record carries it as an optional id. */
module ProjectModel {
  import opened Common
  import opened Text

  datatype Note = Note(text: string)

  /** `createdAt` is the creation time stamp listings sort by. */
  datatype Project = Project(
    owner: Id,
    architect: Option<Id>,
    name: string,
    client: string,
    status: string,
    deadline: string,
    notes: seq<Note>,
    createdAt: int)

  const DefaultClient: string := ""
  const DefaultStatus: string := "Active"
  const DefaultDeadline: string := ""

  /** A note's text is required (so not empty) and trimmed. */
  predicate NoteValid(n: Note)
  {
    n.text != [] && Trimmed(n.text)
  }

  /** The schema's rules: a required trimmed name, a trimmed client and valid notes. */
  predicate Valid(p: Project)
  {
    && p.name != [] && Trimmed(p.name)
    && Trimmed(p.client)
    && forall k :: 0 <= k < |p.notes| ==> NoteValid(p.notes[k])
  }

  /** How a caller stands towards a project in the meeting and document
      controllers: `project.architect.toString()` throws on a record without
      an architect before `client` is looked at. */
  datatype Membership = Member | Outsider | NoArchitect

  function MembershipOf(p: Project, caller: Id): Membership
  {
    if p.architect.None? then NoArchitect
    else if p.architect.value == caller || p.client == caller then Member
    else Outsider
  }
}
