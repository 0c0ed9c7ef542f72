/** The meeting handlers (backend/routes/meetings_route.py). Every handler
    here re-raises its own HTTPException, so 403, 404 and 500 leave with
    their codes and only other exceptions become 400. */
module MeetingsRoute {
  import opened Wrappers
  import opened Tables
  import opened Store
  import Json

  const MeetingDeletedMessage: string := "Meeting deleted successfully"

  function MeetingTime(m: Meeting): int { m.meetingDatetime }

  /** The insert produced a row under an id no meeting has yet. */
  predicate MeetingInserted(meetings: seq<Meeting>, insert: InsertReply)
  {
    insert.Created? && FindMeeting(meetings, insert.id).None?
  }

  /** `create_meeting`: members of the group only, of any role (403); an
      empty insert reply is a 500, a client error a 400. */
  method CreateMeeting(db: Database, groupId: Uuid, meetingDatetime: Timestamp, transcript: Option<string>,
                       summary: Option<Json.JsonObject>, userId: Uuid, insert: InsertReply)
    returns (r: Result<Meeting, int>)
    requires db.Valid()
    modifies db
    ensures db.Valid()
    ensures db.groups == old(db.groups) && db.userGroups == old(db.userGroups)
    ensures db.audioFiles == old(db.audioFiles) && db.objects == old(db.objects)
    ensures !IsMember(old(db.userGroups), userId, groupId) ==> r == Err(403) && db.meetings == old(db.meetings)
    ensures IsMember(old(db.userGroups), userId, groupId) && !MeetingInserted(old(db.meetings), insert) ==>
              r == Err(if insert.NoRow? then 500 else 400) && db.meetings == old(db.meetings)
    ensures IsMember(old(db.userGroups), userId, groupId) && MeetingInserted(old(db.meetings), insert) ==>
              var m := Meeting(insert.id, groupId, meetingDatetime, transcript, summary, insert.createdAt);
              r == Ok(m) && db.meetings == old(db.meetings) + [m]
  {
    if MembershipRows(db.userGroups, userId, groupId) == [] {
      return Err(PassThrough(Http(403)));
    }
    if insert.NoRow? {
      return Err(PassThrough(Http(500)));
    }
    if !MeetingInserted(db.meetings, insert) {
      return Err(PassThrough(Other));
    }
    var m := Meeting(insert.id, groupId, meetingDatetime, transcript, summary, insert.createdAt);
    KeyedAppend(db.meetings, MeetingId, m);
    db.meetings := db.meetings + [m];
    return Ok(m);
  }

  /** `get_meetings`: the group's meetings, or all of them, latest meeting first. */
  function GetMeetings(meetings: seq<Meeting>, groupId: Option<Uuid>): (r: seq<Meeting>)
    ensures SortedDescBy(r, MeetingTime)
    ensures groupId.None? ==> multiset(r) == multiset(meetings)
    ensures groupId.Some? ==>
              forall m :: multiset(r)[m] == if m.groupId == groupId.value then multiset(meetings)[m] else 0
  {
    match groupId
    case None => SortDescBy(meetings, MeetingTime)
    case Some(gid) => SortDescBy(Filter(meetings, (m: Meeting) => m.groupId == gid), MeetingTime)
  }

  /** `get_meeting`: 404 for no such meeting, checked before the 403 for a
      user with no membership row in the meeting's group. */
  function GetMeeting(meetings: seq<Meeting>, links: seq<Membership>, mid: Uuid, userId: Uuid): (r: Result<Meeting, int>)
    ensures r == Err(404) <==> FindMeeting(meetings, mid).None?
    ensures FindMeeting(meetings, mid).Some? ==>
              (r == Err(403) <==> !IsMember(links, userId, FindMeeting(meetings, mid).value.groupId))
    ensures r.Ok? ==> r.value in meetings && r.value.id == mid && IsMember(links, userId, r.value.groupId)
  {
    match FindMeeting(meetings, mid)
    case None => Err(PassThrough(Http(404)))
    case Some(m) =>
      if MembershipRows(links, userId, m.groupId) == [] then Err(PassThrough(Http(403)))
      else Ok(m)
  }

  /** The body of `update_meeting`: each field is written when given, even
      when it is `""` or `{}`. */
  datatype MeetingUpdate = MeetingUpdate(
    meetingDatetime: Option<Timestamp>,
    transcript: Option<string>,
    summary: Option<Json.JsonObject>)

  /** `update_data` stays empty. */
  predicate NoFields(u: MeetingUpdate)
  {
    u.meetingDatetime.None? && u.transcript.None? && u.summary.None?
  }

  /** The `update_data` of `update_meeting` applied to a row: the given
      columns take the given values, every other column is unchanged. */
  function PatchMeeting(m: Meeting, u: MeetingUpdate): (r: Meeting)
    ensures r.id == m.id && r.groupId == m.groupId && r.createdAt == m.createdAt
    ensures r.meetingDatetime == (if u.meetingDatetime.Some? then u.meetingDatetime.value else m.meetingDatetime)
    ensures r.transcript == (if u.transcript.Some? then u.transcript else m.transcript)
    ensures r.summary == (if u.summary.Some? then u.summary else m.summary)
    ensures NoFields(u) ==> r == m
  {
    var m1 := if u.meetingDatetime.Some? then m.(meetingDatetime := u.meetingDatetime.value) else m;
    var m2 := if u.transcript.Some? then m1.(transcript := u.transcript) else m1;
    if u.summary.Some? then m2.(summary := u.summary) else m2
  }

  /** `update meetings set update_data where id = mid`. */
  function PatchMeetings(meetings: seq<Meeting>, mid: Uuid, u: MeetingUpdate): (r: seq<Meeting>)
    ensures |r| == |meetings|
    ensures forall i :: 0 <= i < |meetings| ==>
              r[i] == if meetings[i].id == mid then PatchMeeting(meetings[i], u) else meetings[i]
  {
    UpdateWhere(meetings, (m: Meeting) => m.id == mid, (m: Meeting) => PatchMeeting(m, u))
  }

  /** Patching keeps the meeting ids unique. */
  lemma PatchMeetingsKeyed(meetings: seq<Meeting>, mid: Uuid, u: MeetingUpdate)
    requires Keyed(meetings, MeetingId)
    ensures Keyed(PatchMeetings(meetings, mid, u), MeetingId)
  {
    KeyedPointwise(meetings, PatchMeetings(meetings, mid, u), MeetingId);
  }

  /** `update_meeting`: 404, then admins of the meeting's group only (403);
      with no field given the current row and no write. */
  method UpdateMeeting(db: Database, mid: Uuid, u: MeetingUpdate, userId: Uuid) returns (r: Result<Meeting, int>)
    requires db.Valid()
    modifies db
    ensures db.Valid()
    ensures db.groups == old(db.groups) && db.userGroups == old(db.userGroups)
    ensures db.audioFiles == old(db.audioFiles) && db.objects == old(db.objects)
    ensures FindMeeting(old(db.meetings), mid).None? ==> r == Err(404) && db.meetings == old(db.meetings)
    ensures FindMeeting(old(db.meetings), mid).Some? ==>
              var m := FindMeeting(old(db.meetings), mid).value;
              (!IsAdmin(old(db.userGroups), userId, m.groupId) ==> r == Err(403) && db.meetings == old(db.meetings))
              && (IsAdmin(old(db.userGroups), userId, m.groupId) && NoFields(u) ==>
                    r == Ok(m) && db.meetings == old(db.meetings))
              && (IsAdmin(old(db.userGroups), userId, m.groupId) && !NoFields(u) ==>
                    r == Ok(PatchMeeting(m, u)) && db.meetings == PatchMeetings(old(db.meetings), mid, u))
  {
    var current := FindMeeting(db.meetings, mid);
    if current.None? {
      return Err(PassThrough(Http(404)));
    }
    var m := current.value;
    if AdminRows(db.userGroups, userId, m.groupId) == [] {
      return Err(PassThrough(Http(403)));
    }
    if NoFields(u) {
      return Ok(m);
    }
    PatchMeetingsKeyed(db.meetings, mid, u);
    db.meetings := PatchMeetings(db.meetings, mid, u);
    return Ok(PatchMeeting(m, u));
  }

  /** `delete meetings where id = mid`. */
  function WithoutMeeting(meetings: seq<Meeting>, mid: Uuid): (r: seq<Meeting>)
    ensures forall m :: m in r <==> m in meetings && m.id != mid
    ensures forall m :: multiset(r)[m] == if m.id == mid then 0 else multiset(meetings)[m]
  {
    Filter(meetings, (m: Meeting) => m.id != mid)
  }

  /** Deleting keeps the meeting ids unique. */
  lemma WithoutMeetingKeyed(meetings: seq<Meeting>, mid: Uuid)
    requires Keyed(meetings, MeetingId)
    ensures Keyed(WithoutMeeting(meetings, mid), MeetingId)
  {
    KeyedSubset(meetings, WithoutMeeting(meetings, mid), MeetingId);
  }

  /** `delete_meeting`: 404, then admins of the meeting's group only (403). */
  method DeleteMeeting(db: Database, mid: Uuid, userId: Uuid) returns (r: Result<string, int>)
    requires db.Valid()
    modifies db
    ensures db.Valid()
    ensures db.groups == old(db.groups) && db.userGroups == old(db.userGroups)
    ensures db.audioFiles == old(db.audioFiles) && db.objects == old(db.objects)
    ensures FindMeeting(old(db.meetings), mid).None? ==> r == Err(404) && db.meetings == old(db.meetings)
    ensures FindMeeting(old(db.meetings), mid).Some?
            && !IsAdmin(old(db.userGroups), userId, FindMeeting(old(db.meetings), mid).value.groupId) ==>
              r == Err(403) && db.meetings == old(db.meetings)
    ensures FindMeeting(old(db.meetings), mid).Some?
            && IsAdmin(old(db.userGroups), userId, FindMeeting(old(db.meetings), mid).value.groupId) ==>
              r == Ok(MeetingDeletedMessage) && db.meetings == WithoutMeeting(old(db.meetings), mid)
  {
    var current := FindMeeting(db.meetings, mid);
    if current.None? {
      return Err(PassThrough(Http(404)));
    }
    if AdminRows(db.userGroups, userId, current.value.groupId) == [] {
      return Err(PassThrough(Http(403)));
    }
    WithoutMeetingKeyed(db.meetings, mid);
    db.meetings := WithoutMeeting(db.meetings, mid);
    return Ok(MeetingDeletedMessage);
  }

  /** After the delete no meeting with that id remains. */
  lemma NoMeetingAfterDelete(meetings: seq<Meeting>, mid: Uuid)
    ensures FindMeeting(WithoutMeeting(meetings, mid), mid).None?
  {
    var r := WithoutMeeting(meetings, mid);
    assert forall m :: m in r ==> m.id != mid;
  }

  /** A member of the meeting's group, of any role, gets exactly that row. */
  lemma MemberSeesMeeting(meetings: seq<Meeting>, links: seq<Membership>, m: Meeting, userId: Uuid)
    requires m in meetings && Keyed(meetings, MeetingId)
    requires IsMember(links, userId, m.groupId)
    ensures GetMeeting(meetings, links, m.id, userId) == Ok(m)
  {
    FindMeetingKeyed(meetings, m);
  }
}
