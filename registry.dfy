/**
 * The two dictionaries of the server, `groups` and `users`, with the key order
 * JavaScript keeps for them (insertion order; re-assigning a key keeps its
 * place, `delete` drops it), and the read-only projections built from them.
 */
module Registry {
  import opened ChatTypes
  import opened History
  import opened Members

  /** The group dictionary: keys in `order`, each entry filed under its own id, bounded history, no duplicate members. */
  ghost predicate GroupsWellFormed(groups: map<GroupId, Group>, order: seq<GroupId>) {
    && NoDup(order)
    && (forall g :: g in groups <==> g in order)
    && GLOBAL_ROOM !in groups
    && (forall g :: g in groups ==> groups[g].id == g)
    && (forall g :: g in groups ==> NoDup(groups[g].members))
    && (forall g :: g in groups ==> |groups[g].messages| <= MAX_MESSAGES)
  }

  /** The session dictionary: keys in `order`, each entry filed under its own socket id. */
  ghost predicate UsersWellFormed(users: map<SocketId, User>, order: seq<SocketId>) {
    && NoDup(order)
    && (forall u :: u in users <==> u in order)
    && (forall u :: u in users ==> users[u].id == u)
  }

  /** Every group member has a session. */
  ghost predicate MembersHaveSessions(groups: map<GroupId, Group>, users: map<SocketId, User>) {
    forall g, u :: g in groups && u in groups[g].members ==> u in users
  }

  /** Every session's room is the global room or an existing group. */
  ghost predicate RoomsExist(users: map<SocketId, User>, groups: map<GroupId, Group>) {
    forall u :: u in users ==> users[u].currentRoom == GLOBAL_ROOM || users[u].currentRoom in groups
  }

  function Summary(g: Group): GroupSummary {
    GroupSummary(g.id, g.name, |g.members|, |g.messages|)
  }

  /** `getGroupsList()`: one summary per group, in key order, with counts taken from the live lists. */
  function GroupsList(groups: map<GroupId, Group>, order: seq<GroupId>): (r: seq<GroupSummary>)
    requires forall g :: g in order ==> g in groups
    ensures |r| == |order|
    ensures forall i :: 0 <= i < |r| ==>
      && r[i].id == groups[order[i]].id
      && r[i].name == groups[order[i]].name
      && r[i].memberCount == |groups[order[i]].members|
      && r[i].messageCount == |groups[order[i]].messages|
  {
    seq(|order|, i requires 0 <= i < |order| => Summary(groups[order[i]]))
  }

  /** The `get_users` projection: every session as `{id, username, currentRoom}`, in key order. */
  function UsersList(users: map<SocketId, User>, order: seq<SocketId>): (r: seq<User>)
    requires forall u :: u in order ==> u in users
    ensures |r| == |order|
    ensures forall i :: 0 <= i < |r| ==> r[i] == users[order[i]]
  {
    seq(|order|, i requires 0 <= i < |order| => users[order[i]])
  }

  /** Every group with `sid` filtered out of its member list; the loop of `disconnect` computes this. */
  function WithoutMember(groups: map<GroupId, Group>, sid: SocketId): (r: map<GroupId, Group>)
    ensures r.Keys == groups.Keys
    ensures forall g :: g in r ==> r[g] == groups[g].(members := RemoveAll(groups[g].members, sid))
  {
    map g | g in groups :: groups[g].(members := RemoveAll(groups[g].members, sid))
  }

  /**
   * The `forEach` of `disconnect`: visit the groups in key order and filter
   * `sid` out of each one's members.
   */
  method RemoveMemberEverywhere(groups: map<GroupId, Group>, order: seq<GroupId>, sid: SocketId)
    returns (updated: map<GroupId, Group>)
    requires NoDup(order)
    requires forall g :: g in groups <==> g in order
    ensures updated == WithoutMember(groups, sid)
  {
    updated := groups;
    var i := 0;
    while i < |order|
      invariant 0 <= i <= |order|
      invariant updated.Keys == groups.Keys
      invariant forall g :: g in updated ==>
        updated[g] == if g in order[..i] then groups[g].(members := RemoveAll(groups[g].members, sid)) else groups[g]
    {
      var g := order[i];
      assert g !in order[..i] by {
        forall k | 0 <= k < i
          ensures order[k] != g
        {
        }
      }
      updated := updated[g := updated[g].(members := RemoveAll(updated[g].members, sid))];
      assert order[..i + 1] == order[..i] + [g];
      i := i + 1;
    }
    assert order[..i] == order;
  }

  /**
   * In a well-formed registry the group list has one entry per group, each
   * group's summary under its own id, ids without repetition, and no count of
   * messages above MAX_MESSAGES.
   */
  lemma GroupsListCoversRegistry(groups: map<GroupId, Group>, order: seq<GroupId>)
    requires GroupsWellFormed(groups, order)
    ensures var r := GroupsList(groups, order);
      && |r| == |groups|
      && (forall g :: g in groups ==> Summary(groups[g]) in r)
      && (forall s :: s in r ==> s.id in groups && s == Summary(groups[s.id]))
      && (forall i, j :: 0 <= i < j < |r| ==> r[i].id != r[j].id)
      && (forall s :: s in r ==> s.messageCount <= MAX_MESSAGES)
  {
    var r := GroupsList(groups, order);
    forall g | g in groups
      ensures Summary(groups[g]) in r
    {
      var i :| 0 <= i < |order| && order[i] == g;
      assert r[i] == Summary(groups[g]);
    }
    KeyOrderLength(groups.Keys, order);
  }

  /** The user list has one entry per session, each session's entry as stored. */
  lemma UsersListCoversDirectory(users: map<SocketId, User>, order: seq<SocketId>)
    requires UsersWellFormed(users, order)
    ensures var r := UsersList(users, order);
      && |r| == |users|
      && (forall u :: u in users ==> users[u] in r)
      && (forall v :: v in r ==> v.id in users && users[v.id] == v)
  {
    var r := UsersList(users, order);
    forall u | u in users
      ensures users[u] in r
    {
      var i :| 0 <= i < |order| && order[i] == u;
      assert r[i] == users[u];
    }
    KeyOrderLength(users.Keys, order);
  }

  /** Filtering a socket out of every group keeps the registry well formed and leaves it in no group. */
  lemma WithoutMemberKeepsRegistry(groups: map<GroupId, Group>, order: seq<GroupId>, sid: SocketId)
    requires GroupsWellFormed(groups, order)
    ensures GroupsWellFormed(WithoutMember(groups, sid), order)
    ensures forall g :: g in groups ==> sid !in WithoutMember(groups, sid)[g].members
    ensures forall g :: g in groups ==> |WithoutMember(groups, sid)[g].members| <= |groups[g].members|
  {
  }

  /**
   * Re-filing one existing group under its own id, with a duplicate-free member
   * list of sessions and a bounded history, keeps every registry invariant.
   */
  lemma ReplaceGroupKeepsInvariants(groups: map<GroupId, Group>, order: seq<GroupId>,
                                    users: map<SocketId, User>, gid: GroupId, g: Group)
    requires GroupsWellFormed(groups, order) && MembersHaveSessions(groups, users) && RoomsExist(users, groups)
    requires gid in groups && g.id == gid
    requires NoDup(g.members) && |g.messages| <= MAX_MESSAGES
    requires forall u :: u in g.members ==> u in users
    ensures GroupsWellFormed(groups[gid := g], order)
    ensures MembersHaveSessions(groups[gid := g], users)
    ensures RoomsExist(users, groups[gid := g])
  {
  }

  /**
   * Filtering a socket out of every group and deleting its session keeps every
   * invariant: nothing is left that refers to the departed socket.
   */
  lemma DisconnectKeepsInvariants(groups: map<GroupId, Group>, order: seq<GroupId>,
                                  users: map<SocketId, User>, userOrder: seq<SocketId>, sid: SocketId)
    requires GroupsWellFormed(groups, order) && UsersWellFormed(users, userOrder)
    requires MembersHaveSessions(groups, users) && RoomsExist(users, groups)
    ensures GroupsWellFormed(WithoutMember(groups, sid), order)
    ensures UsersWellFormed(users - {sid}, RemoveAll(userOrder, sid))
    ensures MembersHaveSessions(WithoutMember(groups, sid), users - {sid})
    ensures RoomsExist(users - {sid}, WithoutMember(groups, sid))
  {
  }

  /**
   * Filing a new group holding only a member with a session under `gid`
   * (replacing any group filed there), and moving that session into it, keeps
   * every invariant.
   */
  lemma CreateGroupKeepsInvariants(groups: map<GroupId, Group>, order: seq<GroupId>,
                                   users: map<SocketId, User>, sid: SocketId, gid: GroupId, name: string,
                                   groups': map<GroupId, Group>, order': seq<GroupId>, users': map<SocketId, User>)
    requires GroupsWellFormed(groups, order) && MembersHaveSessions(groups, users) && RoomsExist(users, groups)
    requires sid in users && gid != GLOBAL_ROOM
    requires groups' == groups[gid := Group(gid, name, [sid], [])]
    requires order' == if gid in groups then order else order + [gid]
    requires users' == users[sid := users[sid].(currentRoom := gid)]
    ensures GroupsWellFormed(groups', order')
    ensures MembersHaveSessions(groups', users')
    ensures RoomsExist(users', groups')
  {
  }

  /** Changing only a session's room keeps the directory well formed. */
  lemma MoveSessionKeepsDirectory(users: map<SocketId, User>, order: seq<SocketId>, sid: SocketId, room: string)
    requires UsersWellFormed(users, order) && sid in users
    ensures UsersWellFormed(users[sid := users[sid].(currentRoom := room)], order)
  {
  }
}
