/** The group and membership handlers (backend/routes/groups_route.py).
    Reads are functions of the tables; handlers that write are methods on
    the shared Database. Each method's result is the response body or the
    HTTP status that leaves the handler. */
module GroupsRoute {
  import opened Wrappers
  import opened Tables
  import opened Store
  import Json

  const GroupDeletedMessage: string := "Group deleted successfully"
  const MemberAddedMessage: string := "User added to group successfully"
  const MemberRemovedMessage: string := "User removed from group successfully"

  function GroupCreatedAt(g: Group): int { g.createdAt }
  function LinkJoinedAt(m: Membership): int { m.joinedAt }

  /** The insert produced a row under an id no group has yet. */
  predicate GroupInserted(groups: seq<Group>, insert: InsertReply)
  {
    insert.Created? && FindGroup(groups, insert.id).None?
  }

  /** `create_group`: the group row, then the creator's admin row. Every
      failure, the 500 for an empty insert reply included, leaves as 400;
      a failed membership insert leaves the new group behind. */
  method CreateGroup(db: Database, name: string, description: Option<string>, userId: Uuid,
                     insert: InsertReply, link: LinkReply) returns (r: Result<Group, int>)
    requires db.Valid()
    modifies db
    ensures db.Valid()
    ensures db.meetings == old(db.meetings) && db.audioFiles == old(db.audioFiles) && db.objects == old(db.objects)
    ensures !GroupInserted(old(db.groups), insert) ==>
              r == Err(400) && db.groups == old(db.groups) && db.userGroups == old(db.userGroups)
    ensures GroupInserted(old(db.groups), insert) ==>
              var g := Group(insert.id, name, description, userId, insert.createdAt);
              db.groups == old(db.groups) + [g]
              && (link.Linked? ==>
                    r == Ok(g)
                    && db.userGroups == old(db.userGroups) + [Membership(userId, g.id, AdminRole, link.joinedAt)])
              && (link.LinkFault? ==> r == Err(400) && db.userGroups == old(db.userGroups))
    ensures r.Ok? ==> IsAdmin(db.userGroups, userId, r.value.id) && r.value.createdBy == userId
  {
    if !GroupInserted(db.groups, insert) {
      return Err(CatchAll(if insert.NoRow? then Http(500) else Other));
    }
    var g := Group(insert.id, name, description, userId, insert.createdAt);
    KeyedAppend(db.groups, GroupId, g);
    db.groups := db.groups + [g];
    if link.LinkFault? {
      return Err(CatchAll(Other));
    }
    var admin := Membership(userId, g.id, AdminRole, link.joinedAt);
    db.userGroups := db.userGroups + [admin];
    assert admin in db.userGroups;
    return Ok(g);
  }

  /** The group ids of some membership rows, in row order. */
  function GroupIdsOf(links: seq<Membership>): (ids: seq<Uuid>)
    ensures forall id :: id in ids <==> exists m :: m in links && m.groupId == id
  {
    if links == [] then []
    else
      assert links == [links[0]] + links[1..];
      [links[0].groupId] + GroupIdsOf(links[1..])
  }

  /** `get_groups`: every group newest first, or, for a user, exactly the
      groups they have a membership row for, newest first; none without
      memberships. */
  function GetGroups(groups: seq<Group>, links: seq<Membership>, userId: Option<Uuid>): (r: seq<Group>)
    ensures SortedDescBy(r, GroupCreatedAt)
    ensures userId.None? ==> multiset(r) == multiset(groups)
    ensures userId.Some? ==>
              forall g :: multiset(r)[g] == if IsMember(links, userId.value, g.id) then multiset(groups)[g] else 0
  {
    match userId
    case None => SortDescBy(groups, GroupCreatedAt)
    case Some(u) =>
      var own := Filter(links, (m: Membership) => m.userId == u);
      if own == [] then
        assert forall g: Group :: !IsMember(links, u, g.id);
        []
      else
        var groupIds := GroupIdsOf(own);
        var all := SortDescBy(groups, GroupCreatedAt);
        var mine := Filter(all, (g: Group) => g.id in groupIds);
        assert forall g: Group :: g.id in groupIds <==> IsMember(links, u, g.id);
        SortDescBy(mine, GroupCreatedAt)
  }

  /** A user without a membership row gets no groups. */
  lemma NoMembershipsNoGroups(groups: seq<Group>, links: seq<Membership>, u: Uuid)
    requires forall m :: m in links ==> m.userId != u
    ensures GetGroups(groups, links, Some(u)) == []
  {
    var r := GetGroups(groups, links, Some(u));
    assert forall g: Group :: !IsMember(links, u, g.id);
    assert multiset(r) == multiset{};
  }

  /** `get_group`: the row with that id, or 404. */
  function GetGroup(groups: seq<Group>, gid: Uuid): (r: Result<Group, int>)
    ensures r.Ok? ==> r.value in groups && r.value.id == gid
    ensures r.Err? <==> !exists g :: g in groups && g.id == gid
    ensures r.Err? ==> r.error == 404
  {
    match FindGroup(groups, gid)
    case None => Err(PassThrough(Http(404)))
    case Some(g) => Ok(g)
  }

  /** In a keyed table `get_group` returns the one row with that id. */
  lemma GetGroupFindsRow(groups: seq<Group>, g: Group)
    requires Keyed(groups, GroupId) && g in groups
    ensures GetGroup(groups, g.id) == Ok(g)
  {
    FindGroupKeyed(groups, g);
  }

  /** The `update_data` of `update_group` applied to a row: only the fields
      given change, and an id, creator or creation time never does. */
  function PatchGroup(g: Group, name: Option<string>, description: Option<string>): (r: Group)
    ensures r.id == g.id && r.createdBy == g.createdBy && r.createdAt == g.createdAt
    ensures r.name == (if name.Some? then name.value else g.name)
    ensures r.description == (if description.Some? then description else g.description)
  {
    var g1 := if name.Some? then g.(name := name.value) else g;
    if description.Some? then g1.(description := description) else g1
  }

  /** `update groups set update_data where id = gid`. */
  function PatchGroups(groups: seq<Group>, gid: Uuid, name: Option<string>, description: Option<string>): (r: seq<Group>)
    ensures |r| == |groups|
    ensures forall i :: 0 <= i < |groups| ==>
              r[i] == if groups[i].id == gid then PatchGroup(groups[i], name, description) else groups[i]
  {
    UpdateWhere(groups, (g: Group) => g.id == gid, (g: Group) => PatchGroup(g, name, description))
  }

  /** Patching keeps the group ids unique. */
  lemma PatchGroupsKeyed(groups: seq<Group>, gid: Uuid, name: Option<string>, description: Option<string>)
    requires Keyed(groups, GroupId)
    ensures Keyed(PatchGroups(groups, gid, name, description), GroupId)
  {
    KeyedPointwise(groups, PatchGroups(groups, gid, name, description), GroupId);
  }

  /** `update_group`: admins only (403). With no field given, the current row
      (None for no group) and no write; otherwise the patched row, or 404. */
  method UpdateGroup(db: Database, gid: Uuid, name: Option<string>, description: Option<string>, userId: Uuid)
    returns (r: Result<Option<Group>, int>)
    requires db.Valid()
    modifies db
    ensures db.Valid()
    ensures db.userGroups == old(db.userGroups) && db.meetings == old(db.meetings)
    ensures db.audioFiles == old(db.audioFiles) && db.objects == old(db.objects)
    ensures !IsAdmin(old(db.userGroups), userId, gid) ==> r == Err(403) && db.groups == old(db.groups)
    ensures IsAdmin(old(db.userGroups), userId, gid) && name.None? && description.None? ==>
              r == Ok(FindGroup(old(db.groups), gid)) && db.groups == old(db.groups)
    ensures IsAdmin(old(db.userGroups), userId, gid) && (name.Some? || description.Some?) ==>
              db.groups == PatchGroups(old(db.groups), gid, name, description)
              && r == match FindGroup(old(db.groups), gid)
                      case None => Err(404)
                      case Some(g) => Ok(Some(PatchGroup(g, name, description)))
  {
    if AdminRows(db.userGroups, userId, gid) == [] {
      return Err(PassThrough(Http(403)));
    }
    if name.None? && description.None? {
      return Ok(FindGroup(db.groups, gid));
    }
    var current := FindGroup(db.groups, gid);
    PatchGroupsKeyed(db.groups, gid, name, description);
    db.groups := PatchGroups(db.groups, gid, name, description);
    if current.None? {
      return Err(PassThrough(Http(404)));
    }
    return Ok(Some(PatchGroup(current.value, name, description)));
  }

  /** `delete user_groups where group_id = gid`. */
  function WithoutGroupLinks(links: seq<Membership>, gid: Uuid): (r: seq<Membership>)
    ensures forall m :: m in r <==> m in links && m.groupId != gid
    ensures forall m :: multiset(r)[m] == if m.groupId == gid then 0 else multiset(links)[m]
  {
    Filter(links, (m: Membership) => m.groupId != gid)
  }

  /** `delete groups where id = gid`. */
  function WithoutGroup(groups: seq<Group>, gid: Uuid): (r: seq<Group>)
    ensures forall g :: g in r <==> g in groups && g.id != gid
    ensures forall g :: multiset(r)[g] == if g.id == gid then 0 else multiset(groups)[g]
  {
    Filter(groups, (g: Group) => g.id != gid)
  }

  /** Deleting keeps the group ids unique. */
  lemma WithoutGroupKeyed(groups: seq<Group>, gid: Uuid)
    requires Keyed(groups, GroupId)
    ensures Keyed(WithoutGroup(groups, gid), GroupId)
  {
    KeyedSubset(groups, WithoutGroup(groups, gid), GroupId);
  }

  /** `delete_group`: admins only (403). The group's memberships go first,
      so the 404 for a missing group comes after they are already gone. */
  method DeleteGroup(db: Database, gid: Uuid, userId: Uuid) returns (r: Result<string, int>)
    requires db.Valid()
    modifies db
    ensures db.Valid()
    ensures db.meetings == old(db.meetings) && db.audioFiles == old(db.audioFiles) && db.objects == old(db.objects)
    ensures !IsAdmin(old(db.userGroups), userId, gid) ==>
              r == Err(403) && db.groups == old(db.groups) && db.userGroups == old(db.userGroups)
    ensures IsAdmin(old(db.userGroups), userId, gid) ==>
              db.userGroups == WithoutGroupLinks(old(db.userGroups), gid)
              && db.groups == WithoutGroup(old(db.groups), gid)
              && r == if FindGroup(old(db.groups), gid).None? then Err(404) else Ok(GroupDeletedMessage)
  {
    if AdminRows(db.userGroups, userId, gid) == [] {
      return Err(PassThrough(Http(403)));
    }
    db.userGroups := WithoutGroupLinks(db.userGroups, gid);
    var deleted := GroupsWithId(db.groups, gid);
    WithoutGroupKeyed(db.groups, gid);
    db.groups := WithoutGroup(db.groups, gid);
    if deleted == [] {
      return Err(PassThrough(Http(404)));
    }
    return Ok(GroupDeletedMessage);
  }

  /** `member.role or "member"`: an absent or empty role becomes "member". */
  function RoleOrMember(role: Option<string>): (r: string)
    ensures r != ""
    ensures role.Some? && role.value != "" ==> r == role.value
    ensures role.None? || role.value == "" ==> r == MemberRole
  {
    if role.Some? && role.value != "" then role.value else MemberRole
  }

  /** `add_user_to_group`: admins only, but the 403 leaves as 400; the row is
      added even when the user already has one. */
  method AddUserToGroup(db: Database, gid: Uuid, member: Uuid, role: Option<string>, adminId: Uuid, link: LinkReply)
    returns (r: Result<string, int>)
    requires db.Valid()
    modifies db
    ensures db.Valid()
    ensures db.groups == old(db.groups) && db.meetings == old(db.meetings)
    ensures db.audioFiles == old(db.audioFiles) && db.objects == old(db.objects)
    ensures !IsAdmin(old(db.userGroups), adminId, gid) || link.LinkFault? ==>
              r == Err(400) && db.userGroups == old(db.userGroups)
    ensures IsAdmin(old(db.userGroups), adminId, gid) && link.Linked? ==>
              r == Ok(MemberAddedMessage)
              && db.userGroups == old(db.userGroups) + [Membership(member, gid, RoleOrMember(role), link.joinedAt)]
  {
    if AdminRows(db.userGroups, adminId, gid) == [] {
      return Err(CatchAll(Http(403)));
    }
    if link.LinkFault? {
      return Err(CatchAll(Other));
    }
    db.userGroups := db.userGroups + [Membership(member, gid, RoleOrMember(role), link.joinedAt)];
    return Ok(MemberAddedMessage);
  }

  /** `delete user_groups where user_id = user and group_id = gid`. */
  function WithoutLink(links: seq<Membership>, user: Uuid, gid: Uuid): (r: seq<Membership>)
    ensures forall m :: m in r <==> m in links && !(m.userId == user && m.groupId == gid)
    ensures forall m :: multiset(r)[m] == if m.userId == user && m.groupId == gid then 0 else multiset(links)[m]
    ensures !IsMember(r, user, gid)
  {
    Filter(links, (m: Membership) => !(m.userId == user && m.groupId == gid))
  }

  /** `remove_user_from_group`: a user may always remove themselves; anyone
      else needs an admin row (403). Every row of the pair goes; 404 if there
      was none. */
  method RemoveUserFromGroup(db: Database, gid: Uuid, userId: Uuid, adminId: Uuid) returns (r: Result<string, int>)
    requires db.Valid()
    modifies db
    ensures db.Valid()
    ensures db.groups == old(db.groups) && db.meetings == old(db.meetings)
    ensures db.audioFiles == old(db.audioFiles) && db.objects == old(db.objects)
    ensures adminId != userId && !IsAdmin(old(db.userGroups), adminId, gid) ==>
              r == Err(403) && db.userGroups == old(db.userGroups)
    ensures adminId == userId || IsAdmin(old(db.userGroups), adminId, gid) ==>
              db.userGroups == WithoutLink(old(db.userGroups), userId, gid)
              && r == if IsMember(old(db.userGroups), userId, gid) then Ok(MemberRemovedMessage) else Err(404)
  {
    if adminId != userId && AdminRows(db.userGroups, adminId, gid) == [] {
      return Err(PassThrough(Http(403)));
    }
    var removed := MembershipRows(db.userGroups, userId, gid);
    db.userGroups := WithoutLink(db.userGroups, userId, gid);
    if removed == [] {
      return Err(PassThrough(Http(404)));
    }
    return Ok(MemberRemovedMessage);
  }

  /** A user of the auth service: its metadata, when it is a dict. */
  datatype AuthUser = AuthUser(id: Uuid, email: Option<string>, metadata: Option<Json.JsonObject>)

  /** An entry of `users_dict`. */
  datatype UserInfo = UserInfo(id: Uuid, email: Option<string>, name: Option<Json.JsonValue>)

  /** A row of the `get_group_members` response. */
  datatype MemberInfo = MemberInfo(userId: Uuid, role: string, joinedAt: Timestamp, email: Option<string>, name: Option<Json.JsonValue>)

  /** The `users_dict` entry of one user: the name only when the metadata has
      one. A metadata name of JSON null is kept as `Some(JNull)` where the code
      stores None; both serialize as `null`. */
  function InfoOf(u: AuthUser): (info: UserInfo)
    ensures info.id == u.id && info.email == u.email
    ensures info.name.Some? <==> u.metadata.Some? && "name" in u.metadata.value
    ensures info.name.Some? ==> info.name.value == u.metadata.value["name"]
  {
    UserInfo(u.id, u.email, if u.metadata.Some? && "name" in u.metadata.value then Some(u.metadata.value["name"]) else None)
  }

  /** `users_dict` after the loop over the first users: a later user with
      the same id overwrites an earlier one. */
  function UserIndex(users: seq<AuthUser>): (index: map<Uuid, UserInfo>)
    ensures forall id :: id in index <==> exists i :: 0 <= i < |users| && users[i].id == id
  {
    if users == [] then map[]
    else
      var init := users[..|users| - 1];
      var last := users[|users| - 1];
      assert forall i :: 0 <= i < |init| ==> init[i] == users[i];
      UserIndex(init)[last.id := InfoOf(last)]
  }

  /** A member row built from a membership row and its user's entry. */
  function MemberOf(m: Membership, info: UserInfo): MemberInfo
  {
    MemberInfo(m.userId, m.role, m.joinedAt, info.email, info.name)
  }

  function MemberJoinedAt(x: MemberInfo): int { x.joinedAt }

  /** The combining loop: one member row per membership row whose user is
      known, in membership order; unknown users are dropped. */
  function JoinMembers(rows: seq<Membership>, index: map<Uuid, UserInfo>): (r: seq<MemberInfo>)
    ensures |r| <= |rows|
  {
    if rows == [] then []
    else
      var m := rows[0];
      (if m.userId in index then [MemberOf(m, index[m.userId])] else []) + JoinMembers(rows[1..], index)
  }

  /** `members` is `known` with each membership row joined to its user's entry. */
  predicate JoinedFrom(known: seq<Membership>, index: map<Uuid, UserInfo>, members: seq<MemberInfo>)
  {
    |members| == |known|
    && forall i :: 0 <= i < |known| ==> known[i].userId in index && members[i] == MemberOf(known[i], index[known[i].userId])
  }

  /** One more joined row in front gives its member row in front. */
  lemma JoinedFromCons(m: Membership, known: seq<Membership>, index: map<Uuid, UserInfo>, members: seq<MemberInfo>)
    requires m.userId in index && JoinedFrom(known, index, members)
    ensures JoinedFrom([m] + known, index, [MemberOf(m, index[m.userId])] + members)
  {
  }

  /** Exactly one member row per membership row whose user is known, in
      membership order: the join is the known users' rows, each combined
      with its user's entry. */
  lemma {:induction false} JoinMembersExact(rows: seq<Membership>, index: map<Uuid, UserInfo>)
    ensures JoinedFrom(Filter(rows, (m: Membership) => m.userId in index), index, JoinMembers(rows, index))
  {
    if rows != [] {
      var rest := rows[1..];
      JoinMembersExact(rest, index);
      if rows[0].userId in index {
        JoinedFromCons(rows[0], Filter(rest, (m: Membership) => m.userId in index), index, JoinMembers(rest, index));
      }
    }
  }

  /** Every member row comes from a membership row whose user is known. */
  lemma {:induction false} JoinMembersSound(rows: seq<Membership>, index: map<Uuid, UserInfo>, x: MemberInfo)
    requires x in JoinMembers(rows, index)
    ensures exists m :: m in rows && m.userId in index && x == MemberOf(m, index[m.userId])
  {
    var m := rows[0];
    var rest := JoinMembers(rows[1..], index);
    if m.userId in index && x == MemberOf(m, index[m.userId]) {
    } else {
      assert x in rest;
      JoinMembersSound(rows[1..], index, x);
      var n :| n in rows[1..] && n.userId in index && x == MemberOf(n, index[n.userId]);
      assert n in rows;
    }
  }

  /** Every membership row whose user is known yields its member row. */
  lemma {:induction false} JoinMembersComplete(rows: seq<Membership>, index: map<Uuid, UserInfo>, m: Membership)
    requires m in rows && m.userId in index
    ensures MemberOf(m, index[m.userId]) in JoinMembers(rows, index)
  {
    if rows[0] != m {
      assert rows == [rows[0]] + rows[1..];
      assert m in rows[1..];
      JoinMembersComplete(rows[1..], index, m);
    }
  }

  /** `select user_groups where group_id = gid order by joined_at asc`. */
  function GroupLinksByJoin(links: seq<Membership>, gid: Uuid): (r: seq<Membership>)
    ensures SortedBy(r, LinkJoinedAt)
    ensures forall m :: multiset(r)[m] == if m.groupId == gid then multiset(links)[m] else 0
  {
    SortBy(Filter(links, (m: Membership) => m.groupId == gid), LinkJoinedAt)
  }

  /** `get_group_members`: the group's memberships joined with the auth
      service's users (its `list_users` answer is the parameter). */
  method GetGroupMembers(links: seq<Membership>, gid: Uuid, users: seq<AuthUser>) returns (r: seq<MemberInfo>)
    ensures r == JoinMembers(GroupLinksByJoin(links, gid), UserIndex(users))
  {
    var rows := GroupLinksByJoin(links, gid);
    if rows == [] {
      return [];
    }
    var index := BuildUserIndex(users);
    r := CombineMembers(rows, index);
  }

  /** The loop filling `users_dict`. */
  method BuildUserIndex(users: seq<AuthUser>) returns (index: map<Uuid, UserInfo>)
    ensures index == UserIndex(users)
  {
    index := map[];
    var i := 0;
    while i < |users|
      invariant 0 <= i <= |users|
      invariant index == UserIndex(users[..i])
    {
      assert users[..i + 1][..i] == users[..i];
      index := index[users[i].id := InfoOf(users[i])];
      i := i + 1;
    }
    assert users[..|users|] == users;
  }

  /** The loop appending to `result`. */
  method CombineMembers(rows: seq<Membership>, index: map<Uuid, UserInfo>) returns (r: seq<MemberInfo>)
    ensures r == JoinMembers(rows, index)
  {
    r := [];
    var k := 0;
    while k < |rows|
      invariant 0 <= k <= |rows|
      invariant r + JoinMembers(rows[k..], index) == JoinMembers(rows, index)
    {
      var m := rows[k];
      var piece := if m.userId in index then [MemberOf(m, index[m.userId])] else [];
      JoinStep(rows, index, k);
      assert r + JoinMembers(rows[k..], index) == (r + piece) + JoinMembers(rows[k + 1..], index);
      r := r + piece;
      k := k + 1;
    }
    assert rows[k..] == [];
  }

  /** One step of the combining loop. */
  lemma JoinStep(rows: seq<Membership>, index: map<Uuid, UserInfo>, k: nat)
    requires k < |rows|
    ensures JoinMembers(rows[k..], index)
            == (if rows[k].userId in index then [MemberOf(rows[k], index[rows[k].userId])] else [])
               + JoinMembers(rows[k + 1..], index)
  {
    assert rows[k..][0] == rows[k];
    assert rows[k..][1..] == rows[k + 1..];
  }

  /** The entry of a user id is the last user listed with that id. */
  lemma {:induction false} UserIndexLastWins(users: seq<AuthUser>, i: nat)
    requires i < |users|
    requires forall j :: i < j < |users| ==> users[j].id != users[i].id
    ensures users[i].id in UserIndex(users)
    ensures UserIndex(users)[users[i].id] == InfoOf(users[i])
  {
    var init := users[..|users| - 1];
    if i < |users| - 1 {
      assert forall j :: i < j < |init| ==> init[j] == users[j];
      UserIndexLastWins(init, i);
      assert init[i] == users[i];
    }
  }

  /** A suffix of a sorted table is sorted. */
  lemma SortedTail(rows: seq<Membership>)
    requires rows != [] && SortedBy(rows, LinkJoinedAt)
    ensures SortedBy(rows[1..], LinkJoinedAt)
  {
    var tail := rows[1..];
    forall i, j | 0 <= i < j < |tail| ensures tail[i].joinedAt <= tail[j].joinedAt {
      assert tail[i] == rows[i + 1] && tail[j] == rows[j + 1];
    }
  }

  /** Every member row built from the rows after the first joined no earlier than it. */
  lemma HeadFirst(rows: seq<Membership>, index: map<Uuid, UserInfo>)
    requires rows != [] && SortedBy(rows, LinkJoinedAt)
    ensures forall x :: x in JoinMembers(rows[1..], index) ==> rows[0].joinedAt <= x.joinedAt
  {
    var tail := rows[1..];
    forall x | x in JoinMembers(tail, index) ensures rows[0].joinedAt <= x.joinedAt {
      JoinMembersSound(tail, index, x);
      var n :| n in tail && n.userId in index && x == MemberOf(n, index[n.userId]);
      var j :| 0 <= j < |tail| && tail[j] == n;
      assert rows[j + 1] == n;
    }
  }

  /** Members come out in joining order, as the membership rows were sorted. */
  lemma {:induction false} JoinKeepsOrder(rows: seq<Membership>, index: map<Uuid, UserInfo>)
    requires SortedBy(rows, LinkJoinedAt)
    ensures SortedBy(JoinMembers(rows, index), MemberJoinedAt)
  {
    if rows != [] {
      var m := rows[0];
      SortedTail(rows);
      JoinKeepsOrder(rows[1..], index);
      HeadFirst(rows, index);
      var rest := JoinMembers(rows[1..], index);
      var head := if m.userId in index then [MemberOf(m, index[m.userId])] else [];
      var r := head + rest;
      assert JoinMembers(rows, index) == r;
      forall i, j | 0 <= i < j < |r| ensures r[i].joinedAt <= r[j].joinedAt {
        if |head| == 1 && i == 0 {
          assert r[j] == rest[j - 1] && rest[j - 1] in rest;
        } else {
          assert r[i] == rest[i - |head|] && r[j] == rest[j - |head|];
        }
      }
    }
  }
}
