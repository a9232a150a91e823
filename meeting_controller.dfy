/** The meeting handlers (server/controllers/meetingController.js) over an
    in-memory meeting store. The project store they consult is a parameter. */
module Meetings {
  import opened Common
  import opened MeetingModel
  import ProjectModel
  import opened Listing
  import Text

  /** The fields of `req.body` that createMeeting reads. */
  datatype MeetingRequest = MeetingRequest(
    title: Option<string>,
    description: Option<string>,
    date: Option<int>,
    duration: Option<int>,
    location: Option<string>,
    projectId: Id,
    participants: Option<seq<Id>>)

  /** The record createMeeting builds: `duration || 60`, the given participants
      when there are any and otherwise just the caller, status 'scheduled'. */
  function NewMeeting(req: MeetingRequest, caller: Id): (m: Meeting)
    ensures m.creator == caller && m.project == req.projectId && m.status == DefaultStatus
    ensures m.title == req.title && m.description == req.description && m.date == req.date
    ensures m.location == req.location && m.notes.None? && m.attachments == []
    ensures req.duration.None? || req.duration.value == 0 ==> m.duration == DefaultDuration
    ensures req.duration.Some? && req.duration.value != 0 ==> m.duration == req.duration.value
    ensures req.participants.Some? && req.participants.value != [] ==> m.participants == req.participants.value
    ensures req.participants.None? || req.participants.value == [] ==> m.participants == [caller]
  {
    Meeting(
      req.title, req.description, req.date,
      if req.duration.Some? && req.duration.value != 0 then req.duration.value else DefaultDuration,
      req.location, DefaultStatus, req.projectId, caller,
      if req.participants.Some? && |req.participants.value| > 0 then req.participants.value else [caller],
      None, [])
  }

  /** The creator can read the new meeting exactly when the participant list
      was defaulted or names the creator: a nonempty list is not extended. */
  lemma CreatorSeesNewMeeting(req: MeetingRequest, caller: Id)
    ensures CanView(NewMeeting(req, caller), caller)
        <==> req.participants.None? || req.participants.value == [] || caller in req.participants.value
  {
  }

  /** A request with a title the schema accepts and a date gives a meeting
      that satisfies the schema. */
  lemma NewMeetingValid(req: MeetingRequest, caller: Id)
    requires req.title.Some? && Text.Trimmed(req.title.value) && |req.title.value| >= 3 && req.date.Some?
    requires req.description.None? || Text.Trimmed(req.description.value)
    requires req.location.None? || Text.Trimmed(req.location.value)
    ensures Valid(NewMeeting(req, caller))
  {
    var m := NewMeeting(req, caller);
    assert m.title == req.title && m.date == req.date && m.notes.None?;
    assert m.description == req.description && m.location == req.location;
  }

  /** getMeetingById's check: is the caller among the participants? */
  predicate CanView(m: Meeting, caller: Id)
  {
    caller in m.participants
  }

  /** The getMeetings filter: the caller participates, and the project and
      status match when those query values are given (an empty one is no filter). */
  predicate Matches(m: Meeting, caller: Id, projectId: Option<string>, status: Option<string>)
  {
    && caller in m.participants
    && (Truthy(projectId) ==> m.project == projectId.value)
    && (Truthy(status) ==> StatusName(m.status) == status.value)
  }

  /** The key getMeetings sorts by, newest first. */
  function DateKey(m: Meeting): Option<int>
  {
    m.date
  }

  /** The keys of `req.body` that `Object.assign` copies onto a meeting; an
      absent key is `None`. */
  datatype MeetingPatch = MeetingPatch(
    title: Option<string>,
    description: Option<string>,
    date: Option<int>,
    duration: Option<int>,
    location: Option<string>,
    status: Option<MeetingStatus>,
    project: Option<Id>,
    creator: Option<Id>,
    participants: Option<seq<Id>>,
    notes: Option<string>,
    attachments: Option<seq<Id>>)

  const EmptyPatch := MeetingPatch(None, None, None, None, None, None, None, None, None, None, None)

  function Pick<T>(patch: Option<T>, current: T): T
  {
    if patch.Some? then patch.value else current
  }

  function PickOpt<T>(patch: Option<T>, current: Option<T>): Option<T>
  {
    if patch.Some? then patch else current
  }

  /** `Object.assign(meeting, patch)`: every key of the patch overwrites its
      field, every other field keeps its value. */
  function Assign(m: Meeting, p: MeetingPatch): (r: Meeting)
    ensures p.title.Some? ==> r.title == p.title
    ensures p.title.None? ==> r.title == m.title
    ensures p.description.Some? ==> r.description == p.description
    ensures p.description.None? ==> r.description == m.description
    ensures p.date.Some? ==> r.date == p.date
    ensures p.date.None? ==> r.date == m.date
    ensures p.duration.Some? ==> r.duration == p.duration.value
    ensures p.duration.None? ==> r.duration == m.duration
    ensures p.location.Some? ==> r.location == p.location
    ensures p.location.None? ==> r.location == m.location
    ensures p.status.Some? ==> r.status == p.status.value
    ensures p.status.None? ==> r.status == m.status
    ensures p.project.Some? ==> r.project == p.project.value
    ensures p.project.None? ==> r.project == m.project
    ensures p.creator.Some? ==> r.creator == p.creator.value
    ensures p.creator.None? ==> r.creator == m.creator
    ensures p.participants.Some? ==> r.participants == p.participants.value
    ensures p.participants.None? ==> r.participants == m.participants
    ensures p.notes.Some? ==> r.notes == p.notes
    ensures p.notes.None? ==> r.notes == m.notes
    ensures p.attachments.Some? ==> r.attachments == p.attachments.value
    ensures p.attachments.None? ==> r.attachments == m.attachments
  {
    Meeting(
      PickOpt(p.title, m.title), PickOpt(p.description, m.description), PickOpt(p.date, m.date),
      Pick(p.duration, m.duration), PickOpt(p.location, m.location), Pick(p.status, m.status),
      Pick(p.project, m.project), Pick(p.creator, m.creator), Pick(p.participants, m.participants),
      PickOpt(p.notes, m.notes), Pick(p.attachments, m.attachments))
  }

  /** An empty body changes nothing. */
  lemma AssignEmpty(m: Meeting)
    ensures Assign(m, EmptyPatch) == m
  {
  }

  /** Applying the same body twice is applying it once. */
  lemma AssignIdempotent(m: Meeting, p: MeetingPatch)
    ensures Assign(Assign(m, p), p) == Assign(m, p)
  {
  }

  /** Two successive bodies act as one body where the later keys win. */
  function Merge(p: MeetingPatch, q: MeetingPatch): MeetingPatch
  {
    MeetingPatch(
      PickOpt(q.title, p.title), PickOpt(q.description, p.description), PickOpt(q.date, p.date),
      PickOpt(q.duration, p.duration), PickOpt(q.location, p.location), PickOpt(q.status, p.status),
      PickOpt(q.project, p.project), PickOpt(q.creator, p.creator), PickOpt(q.participants, p.participants),
      PickOpt(q.notes, p.notes), PickOpt(q.attachments, p.attachments))
  }

  lemma AssignCompose(m: Meeting, p: MeetingPatch, q: MeetingPatch)
    ensures Assign(Assign(m, p), q) == Assign(m, Merge(p, q))
  {
  }

  /** addParticipant's list update: append the id unless it is already there. */
  function WithParticipant(ps: seq<Id>, x: Id): (r: seq<Id>)
    ensures x in r
    ensures forall y :: y in r <==> y in ps || y == x
    ensures |ps| <= |r| <= |ps| + 1 && r[..|ps|] == ps
    ensures x in ps ==> r == ps
    ensures Distinct(ps) ==> Distinct(r)
  {
    if x in ps then ps else ps + [x]
  }

  /** Adding the same participant again changes nothing. */
  lemma WithParticipantIdempotent(ps: seq<Id>, x: Id)
    ensures WithParticipant(WithParticipant(ps, x), x) == WithParticipant(ps, x)
  {
  }

  /** The ordered id list `all` is what getMeetings sorts and pages for `caller`. */
  ghost predicate Listed(all: seq<Id>, store: map<Id, Meeting>, caller: Id, projectId: Option<string>, status: Option<string>)
  {
    && (forall id :: id in all <==> id in store && Matches(store[id], caller, projectId, status))
    && Distinct(all)
    && NewestFirst(all, Ranks(store, DateKey))
  }

  class MeetingController {
    var meetings: map<Id, Meeting>

    constructor()
      ensures meetings == map[]
    {
      meetings := map[];
    }

    /** createMeeting: 404 for an unknown project, 400 when the project has
        no architect, 403 for a caller who is neither its architect nor its
        client; only a member stores the new meeting under `newId`. */
    method CreateMeeting(req: MeetingRequest, caller: Id, projects: map<Id, ProjectModel.Project>, newId: Id) returns (r: Reply<Meeting>)
      requires newId !in meetings
      modifies this
      ensures req.projectId !in projects ==> r.code == 404 && r.message == "Project not found"
      ensures req.projectId in projects && ProjectModel.MembershipOf(projects[req.projectId], caller) == ProjectModel.NoArchitect
              ==> r.code == 400 && r.message == TypeErrorMessage
      ensures req.projectId in projects && ProjectModel.MembershipOf(projects[req.projectId], caller) == ProjectModel.Outsider
              ==> r.code == 403 && r.message == "Not authorized to create meeting for this project"
      ensures r.code == 201 <==> req.projectId in projects && ProjectModel.MembershipOf(projects[req.projectId], caller) == ProjectModel.Member
      ensures r.code == 201 ==> r.data == Some(NewMeeting(req, caller)) && meetings == old(meetings)[newId := NewMeeting(req, caller)]
      ensures r.code != 201 ==> r.data.None? && meetings == old(meetings)
    {
      if req.projectId !in projects {
        return Reply(404, "Project not found", None);
      }
      match ProjectModel.MembershipOf(projects[req.projectId], caller)
      case NoArchitect =>
        return Reply(400, TypeErrorMessage, None);
      case Outsider =>
        return Reply(403, "Not authorized to create meeting for this project", None);
      case Member =>
        var m := NewMeeting(req, caller);
        meetings := meetings[newId := m];
        return Reply(201, "Meeting created successfully", Some(m));
    }

    /** getMeetings: the caller's matching meetings, newest date first, one
        page of them; `total` counts every match. */
    method GetMeetings(caller: Id, projectId: Option<string>, status: Option<string>, page: nat := 1, limit: nat := 50)
      returns (p: Page)
      requires page >= 1 && limit >= 1
      ensures exists all :: Listed(all, meetings, caller, projectId, status) && p == Paginate(all, page, limit)
    {
      var all := Select(meetings, (m: Meeting) => Matches(m, caller, projectId, status), DateKey);
      p := Paginate(all, page, limit);
      assert Listed(all, meetings, caller, projectId, status);
    }

    /** getMeetingById: 404 before any authorization, then 403 unless the
        caller participates. */
    method GetMeetingById(id: Id, caller: Id) returns (r: Reply<Meeting>)
      ensures id !in meetings ==> r.code == 404 && r.message == "Meeting not found" && r.data.None?
      ensures id in meetings && !CanView(meetings[id], caller)
              ==> r.code == 403 && r.message == "Not authorized to view this meeting" && r.data.None?
      ensures id in meetings && CanView(meetings[id], caller) ==> r.code == 200 && r.data == Some(meetings[id])
    {
      if id !in meetings {
        return Reply(404, "Meeting not found", None);
      }
      var m := meetings[id];
      if !CanView(m, caller) {
        return Reply(403, "Not authorized to view this meeting", None);
      }
      return Reply(200, "", Some(m));
    }

    /** updateMeeting: only the creator may apply a body; it is copied key by key. */
    method UpdateMeeting(id: Id, caller: Id, patch: MeetingPatch) returns (r: Reply<Meeting>)
      modifies this
      ensures id !in old(meetings) ==> r.code == 404 && r.message == "Meeting not found"
      ensures id in old(meetings) && old(meetings)[id].creator != caller
              ==> r.code == 403 && r.message == "Not authorized to update this meeting"
      ensures r.code == 200 <==> id in old(meetings) && old(meetings)[id].creator == caller
      ensures r.code == 200 ==> meetings == old(meetings)[id := Assign(old(meetings)[id], patch)]
                                && r.data == Some(meetings[id])
      ensures r.code != 200 ==> meetings == old(meetings) && r.data.None?
    {
      if id !in meetings {
        return Reply(404, "Meeting not found", None);
      }
      var m := meetings[id];
      if m.creator != caller {
        return Reply(403, "Not authorized to update this meeting", None);
      }
      var updated := Assign(m, patch);
      meetings := meetings[id := updated];
      return Reply(200, "Meeting updated successfully", Some(updated));
    }

    /** deleteMeeting: only the creator may delete, and only that meeting goes. */
    method DeleteMeeting(id: Id, caller: Id) returns (r: Reply<Meeting>)
      modifies this
      ensures id !in old(meetings) ==> r.code == 404 && r.message == "Meeting not found"
      ensures id in old(meetings) && old(meetings)[id].creator != caller
              ==> r.code == 403 && r.message == "Not authorized to delete this meeting"
      ensures r.code == 200 <==> id in old(meetings) && old(meetings)[id].creator == caller
      ensures r.code == 200 ==> meetings == old(meetings) - {id}
      ensures r.code != 200 ==> meetings == old(meetings)
      ensures forall k :: k in old(meetings) && k != id ==> k in meetings && meetings[k] == old(meetings)[k]
      ensures r.data.None?
    {
      if id !in meetings {
        return Reply(404, "Meeting not found", None);
      }
      if meetings[id].creator != caller {
        return Reply(403, "Not authorized to delete this meeting", None);
      }
      meetings := meetings - {id};
      return Reply(200, "Meeting deleted successfully", None);
    }

    /** addParticipant: only the creator may add; an id already listed is not
        added twice, a new one goes to the end. */
    method AddParticipant(id: Id, caller: Id, participantId: Id) returns (r: Reply<Meeting>)
      modifies this
      ensures id !in old(meetings) ==> r.code == 404 && r.message == "Meeting not found"
      ensures id in old(meetings) && old(meetings)[id].creator != caller
              ==> r.code == 403 && r.message == "Not authorized"
      ensures r.code == 200 <==> id in old(meetings) && old(meetings)[id].creator == caller
      ensures r.code == 200 ==>
                var m := old(meetings)[id];
                meetings == old(meetings)[id := m.(participants := WithParticipant(m.participants, participantId))]
                && r.data == Some(meetings[id])
      ensures r.code != 200 ==> meetings == old(meetings) && r.data.None?
    {
      if id !in meetings {
        return Reply(404, "Meeting not found", None);
      }
      var m := meetings[id];
      if m.creator != caller {
        return Reply(403, "Not authorized", None);
      }
      if participantId !in m.participants {
        m := m.(participants := m.participants + [participantId]);
        meetings := meetings[id := m];
      }
      return Reply(200, "Participant added", Some(m));
    }
  }
}
