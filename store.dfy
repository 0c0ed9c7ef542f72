/** The database the route handlers share: four tables held as sequences of
    rows, plus the storage bucket objects. A `select`, `update` or `delete`
    with equality filters acts on exactly the rows matching every filter and
    returns those rows; the outcome of an `insert` (the generated id and
    timestamp, an empty reply, or a client error) is chosen by the caller. */
module Store {
  import opened Wrappers
  import opened Tables
  import Json

  type Uuid = string
  type Timestamp = int

  const AdminRole: string := "admin"
  const MemberRole: string := "member"

  /** A row of `groups`. */
  datatype Group = Group(id: Uuid, name: string, description: Option<string>, createdBy: Uuid, createdAt: Timestamp)

  /** A row of `user_groups`: nothing in the handlers keeps these unique. */
  datatype Membership = Membership(userId: Uuid, groupId: Uuid, role: string, joinedAt: Timestamp)

  /** A row of `meetings`. */
  datatype Meeting = Meeting(
    id: Uuid,
    groupId: Uuid,
    meetingDatetime: Timestamp,
    transcript: Option<string>,
    summary: Option<Json.JsonObject>,
    createdAt: Timestamp)

  /** A row of `audio_files`. */
  datatype AudioFile = AudioFile(
    id: Uuid,
    groupId: Uuid,
    bucketName: string,
    path: string,
    originalFilename: Option<string>,
    mimetype: Option<string>,
    size: Option<int>,
    meetingDatetime: Option<string>,
    meetingId: Option<Uuid>,
    createdAt: Timestamp)

  /** Where a storage object lives. */
  datatype ObjectKey = ObjectKey(bucket: string, path: string)

  /** Where an audio record's object is stored. */
  function ObjectOf(a: AudioFile): ObjectKey
  {
    ObjectKey(a.bucketName, a.path)
  }

  /** What the database answers to an insert into a keyed table: the new
      row's generated id and creation time, no row at all, or an error
      raised by the client (a generated id already in use is such an error). */
  datatype InsertReply = Created(id: Uuid, createdAt: Timestamp) | NoRow | Fault

  /** What the database answers to an insert into `user_groups`. */
  datatype LinkReply = Linked(joinedAt: Timestamp) | LinkFault

  /** What a handler's `try` block raised: an HTTPException with its code,
      or any other exception. */
  datatype Raised = Http(code: int) | Other

  /** The status of a handler that re-raises HTTPException and turns every
      other exception into 400. */
  function PassThrough(e: Raised): (status: int)
    ensures e.Http? ==> status == e.code
    ensures !e.Http? ==> status == 400
  {
    if e.Http? then e.code else 400
  }

  /** The status of a handler whose one `except Exception` also catches its
      own HTTPException: always 400. */
  function CatchAll(e: Raised): (status: int)
    ensures status == 400
  {
    400
  }

  function GroupId(g: Group): Uuid { g.id }
  function MeetingId(m: Meeting): Uuid { m.id }
  function AudioFileId(a: AudioFile): Uuid { a.id }

  /** The id is a key of the table: two rows with the same id are the same row. */
  ghost predicate Keyed<T>(s: seq<T>, key: T -> Uuid)
  {
    forall a, b :: a in s && b in s && key(a) == key(b) ==> a == b
  }

  /** A row with an unused id keeps the table keyed. */
  lemma KeyedAppend<T>(s: seq<T>, key: T -> Uuid, x: T)
    requires Keyed(s, key)
    requires forall y :: y in s ==> key(y) != key(x)
    ensures Keyed(s + [x], key)
  {
    forall a, b | a in s + [x] && b in s + [x] && key(a) == key(b) ensures a == b {
      assert a in s || a == x;
      assert b in s || b == x;
    }
  }

  /** Deleting rows keeps the table keyed. */
  lemma KeyedSubset<T>(s: seq<T>, r: seq<T>, key: T -> Uuid)
    requires Keyed(s, key)
    requires forall x :: x in r ==> x in s
    ensures Keyed(r, key)
  {
  }

  /** A row-by-row rewrite that keeps every key, and rewrites equal rows
      alike, keeps the table keyed. */
  lemma KeyedPointwise<T>(s: seq<T>, r: seq<T>, key: T -> Uuid)
    requires Keyed(s, key) && |r| == |s|
    requires forall i :: 0 <= i < |s| ==> key(r[i]) == key(s[i])
    requires forall i, j :: 0 <= i < |s| && 0 <= j < |s| && s[i] == s[j] ==> r[i] == r[j]
    ensures Keyed(r, key)
  {
    forall a, b | a in r && b in r && key(a) == key(b) ensures a == b {
      var i :| 0 <= i < |r| && r[i] == a;
      var j :| 0 <= j < |r| && r[j] == b;
      assert s[i] in s && s[j] in s;
      assert key(s[i]) == key(s[j]);
    }
  }

  /** `select groups where id = gid`. */
  function GroupsWithId(groups: seq<Group>, gid: Uuid): (r: seq<Group>)
    ensures forall g :: g in r <==> g in groups && g.id == gid
  {
    Filter(groups, (g: Group) => g.id == gid)
  }

  /** `result[0]` of that select, if any. */
  function FindGroup(groups: seq<Group>, gid: Uuid): (r: Option<Group>)
    ensures r.Some? <==> exists g :: g in groups && g.id == gid
    ensures r.Some? ==> r.value in groups && r.value.id == gid
  {
    var rows := GroupsWithId(groups, gid);
    if rows == [] then None else assert rows[0] in rows; Some(rows[0])
  }

  /** `select meetings where id = mid`. */
  function MeetingsWithId(meetings: seq<Meeting>, mid: Uuid): (r: seq<Meeting>)
    ensures forall m :: m in r <==> m in meetings && m.id == mid
  {
    Filter(meetings, (m: Meeting) => m.id == mid)
  }

  function FindMeeting(meetings: seq<Meeting>, mid: Uuid): (r: Option<Meeting>)
    ensures r.Some? <==> exists m :: m in meetings && m.id == mid
    ensures r.Some? ==> r.value in meetings && r.value.id == mid
  {
    var rows := MeetingsWithId(meetings, mid);
    if rows == [] then None else assert rows[0] in rows; Some(rows[0])
  }

  /** `select audio_files where id = fid`. */
  function AudioFilesWithId(files: seq<AudioFile>, fid: Uuid): (r: seq<AudioFile>)
    ensures forall a :: a in r <==> a in files && a.id == fid
  {
    Filter(files, (a: AudioFile) => a.id == fid)
  }

  function FindAudioFile(files: seq<AudioFile>, fid: Uuid): (r: Option<AudioFile>)
    ensures r.Some? <==> exists a :: a in files && a.id == fid
    ensures r.Some? ==> r.value in files && r.value.id == fid
  {
    var rows := AudioFilesWithId(files, fid);
    if rows == [] then None else assert rows[0] in rows; Some(rows[0])
  }

  /** In a keyed table, the row found by id is the one row with that id. */
  lemma FindGroupKeyed(groups: seq<Group>, g: Group)
    requires Keyed(groups, GroupId) && g in groups
    ensures FindGroup(groups, g.id) == Some(g)
  {
    var f := FindGroup(groups, g.id).value;
    assert GroupId(f) == GroupId(g);
  }

  lemma FindMeetingKeyed(meetings: seq<Meeting>, m: Meeting)
    requires Keyed(meetings, MeetingId) && m in meetings
    ensures FindMeeting(meetings, m.id) == Some(m)
  {
    var f := FindMeeting(meetings, m.id).value;
    assert MeetingId(f) == MeetingId(m);
  }

  /** The user has a `user_groups` row for the group, of any role. */
  ghost predicate IsMember(links: seq<Membership>, user: Uuid, group: Uuid)
  {
    exists m :: m in links && m.userId == user && m.groupId == group
  }

  /** The user has a `user_groups` row for the group with role "admin". */
  ghost predicate IsAdmin(links: seq<Membership>, user: Uuid, group: Uuid)
  {
    exists m :: m in links && m.userId == user && m.groupId == group && m.role == AdminRole
  }

  /** `select user_groups where user_id = user and group_id = group`:
      empty exactly when the user is not a member. */
  function MembershipRows(links: seq<Membership>, user: Uuid, group: Uuid): (r: seq<Membership>)
    ensures forall m :: m in r <==> m in links && m.userId == user && m.groupId == group
    ensures r == [] <==> !IsMember(links, user, group)
  {
    var r := Filter(links, (m: Membership) => m.userId == user && m.groupId == group);
    assert r != [] ==> r[0] in r;
    r
  }

  /** The same select with `role = "admin"` added: empty exactly when the
      user is not an admin of the group. */
  function AdminRows(links: seq<Membership>, user: Uuid, group: Uuid): (r: seq<Membership>)
    ensures forall m :: m in r <==> m in links && m.userId == user && m.groupId == group && m.role == AdminRole
    ensures r == [] <==> !IsAdmin(links, user, group)
  {
    var r := Filter(links, (m: Membership) => m.userId == user && m.groupId == group && m.role == AdminRole);
    assert r != [] ==> r[0] in r;
    r
  }

  /** The shared database: the four tables and the storage objects. */
  class Database {
    var groups: seq<Group>
    var userGroups: seq<Membership>
    var meetings: seq<Meeting>
    var audioFiles: seq<AudioFile>
    var objects: map<ObjectKey, seq<bv8>>

    /** Every keyed table has unique ids. */
    ghost predicate Valid()
      reads this
    {
      Keyed(groups, GroupId) && Keyed(meetings, MeetingId) && Keyed(audioFiles, AudioFileId)
    }

    constructor ()
      ensures Valid()
      ensures groups == [] && userGroups == [] && meetings == [] && audioFiles == [] && objects == map[]
    {
      groups := [];
      userGroups := [];
      meetings := [];
      audioFiles := [];
      objects := map[];
    }
  }
}
