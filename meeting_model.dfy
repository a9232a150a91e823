/** The meeting schema (server/models/Meeting.js). Records use the field names
    the meeting controller writes: `creator` where the schema says `createdBy`. */
module MeetingModel {
  import opened Common
  import opened Text

  datatype MeetingStatus = Scheduled | Completed | Cancelled

  function StatusName(s: MeetingStatus): string
  {
    match s
    case Scheduled => "scheduled"
    case Completed => "completed"
    case Cancelled => "cancelled"
  }

  /** Minutes. */
  const DefaultDuration: int := 60
  const DefaultStatus: MeetingStatus := Scheduled

  /** A stored meeting; `date` is a time stamp in milliseconds. */
  datatype Meeting = Meeting(
    title: Option<string>,
    description: Option<string>,
    date: Option<int>,
    duration: int,
    location: Option<string>,
    status: MeetingStatus,
    project: Id,
    creator: Id,
    participants: seq<Id>,
    notes: Option<string>,
    attachments: seq<Id>)

  /** The schema's rules: a trimmed title of at least 3 characters and a date;
      `project` and the creator are present by construction, the id lists may
      be empty, and the status is one of the three enum values by its type. */
  predicate Valid(m: Meeting)
  {
    && m.title.Some? && Trimmed(m.title.value) && |m.title.value| >= 3
    && m.date.Some?
    && (m.description.None? || Trimmed(m.description.value))
    && (m.location.None? || Trimmed(m.location.value))
    && (m.notes.None? || Trimmed(m.notes.value))
  }
}
