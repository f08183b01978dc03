/**
 * The chat server's in-memory state and its Socket.IO event handlers
 * (server.js:19-23, 35-229). Each handler is a method taking the id of the
 * socket that raised the event, its payload fields, and, where the source reads
 * the clock, the clock value; it returns the events it sends, each tagged with
 * its recipient scope, in the order the source emits them.
 */
module ChatServer {
  import opened ChatTypes
  import opened History
  import opened Members
  import opened GroupIds
  import opened Registry

  class Server {
    /** The last MAX_MESSAGES global messages, oldest first. */
    var globalMessages: seq<Message>
    var groups: map<GroupId, Group>
    /** The keys of `groups` in the order `Object.values(groups)` visits them. */
    var groupOrder: seq<GroupId>
    var users: map<SocketId, User>
    /** The keys of `users` in the order `Object.values(users)` visits them. */
    var userOrder: seq<SocketId>

    ghost predicate Valid()
      reads this
    {
      && |globalMessages| <= MAX_MESSAGES
      && GroupsWellFormed(groups, groupOrder)
      && UsersWellFormed(users, userOrder)
      && MembersHaveSessions(groups, users)
      && RoomsExist(users, groups)
    }

    /** Server start: no history, no groups, no sessions. */
    constructor ()
      ensures Valid()
      ensures globalMessages == [] && groups == map[] && groupOrder == []
      ensures users == map[] && userOrder == []
    {
      globalMessages := [];
      groups := map[];
      groupOrder := [];
      users := map[];
      userOrder := [];
    }

    /** `join`: (re)register the session in the global room; history to the requester, notice to all. */
    method Join(sid: SocketId, username: string) returns (out: seq<Outbound>)
      requires Valid()
      modifies this
      ensures Valid()
      ensures users == old(users)[sid := User(sid, username, GLOBAL_ROOM)]
      ensures userOrder == if sid in old(users) then old(userOrder) else old(userOrder) + [sid]
      ensures globalMessages == old(globalMessages)
      ensures groups == old(groups) && groupOrder == old(groupOrder)
      ensures out == [Outbound(Requester, LoadGlobalMessages(globalMessages)), Outbound(All, UserJoined(username))]
    {
      if sid !in users {
        userOrder := userOrder + [sid];
      }
      users := users[sid := User(sid, username, GLOBAL_ROOM)];
      out := [Outbound(Requester, LoadGlobalMessages(globalMessages)), Outbound(All, UserJoined(username))];
    }

    /** `global_message`: without a session nothing happens; otherwise the message is kept in the bounded global history and sent to all. */
    method GlobalMessage(sid: SocketId, text: string, clock: nat, timestamp: string) returns (out: seq<Outbound>)
      requires Valid()
      modifies this
      ensures Valid()
      ensures sid !in old(users) ==> out == [] && globalMessages == old(globalMessages)
      ensures sid in old(users) ==>
        var m := Message(clock, old(users)[sid].username, text, timestamp, GlobalKind);
        && globalMessages == PushCapped(old(globalMessages), m)
        && out == [Outbound(All, ReceiveGlobalMessage(m))]
      ensures users == old(users) && userOrder == old(userOrder)
      ensures groups == old(groups) && groupOrder == old(groupOrder)
    {
      if sid !in users {
        return [];
      }
      var m := Message(clock, users[sid].username, text, timestamp, GlobalKind);
      globalMessages := PushCapped(globalMessages, m);
      out := [Outbound(All, ReceiveGlobalMessage(m))];
    }

    /**
     * `create_group`: store a group holding only the caller, with no messages,
     * under the id of the clock reading (replacing any group already filed
     * there), and move the caller into it.
     */
    method CreateGroup(sid: SocketId, groupName: string, clock: nat) returns (out: seq<Outbound>)
      requires Valid()
      requires sid in users
      modifies this
      ensures Valid()
      ensures var gid := GroupIdFor(clock);
        && groups == old(groups)[gid := Group(gid, groupName, [sid], [])]
        && groupOrder == (if gid in old(groups) then old(groupOrder) else old(groupOrder) + [gid])
        && users == old(users)[sid := old(users)[sid].(currentRoom := gid)]
        && out == [Outbound(Requester, GroupCreated(gid, groupName)),
                   Outbound(All, GroupListUpdated(GroupsList(groups, groupOrder)))]
      ensures userOrder == old(userOrder) && globalMessages == old(globalMessages)
    {
      var gid := GroupIdFor(clock);
      var created := Group(gid, groupName, [sid], []);
      var groups' := groups[gid := created];
      var order' := if gid in groups then groupOrder else groupOrder + [gid];
      var users' := users[sid := users[sid].(currentRoom := gid)];
      CreateGroupKeepsInvariants(groups, groupOrder, users, sid, gid, groupName, groups', order', users');
      MoveSessionKeepsDirectory(users, userOrder, sid, gid);
      groups, groupOrder, users := groups', order', users';
      out := [Outbound(Requester, GroupCreated(gid, groupName)),
              Outbound(All, GroupListUpdated(GroupsList(groups', order')))];
    }

    /** `get_groups`: the group list, to the requester only. */
    method GetGroups() returns (out: seq<Outbound>)
      requires Valid()
      ensures out == [Outbound(Requester, GroupList(GroupsList(groups, groupOrder)))]
      ensures var r := out[0].event.groups;
        && |r| == |groups|
        && (forall g :: g in groups ==> Summary(groups[g]) in r)
        && (forall s :: s in r ==> s.id in groups && s == Summary(groups[s.id]))
    {
      GroupsListCoversRegistry(groups, groupOrder);
      out := [Outbound(Requester, GroupList(GroupsList(groups, groupOrder)))];
    }

    /**
     * `join_group`: an unknown group gets an error to the requester and nothing
     * changes; otherwise the caller is added to its members unless already
     * there, moved into it, sent its history, and announced to the group.
     */
    method JoinGroup(sid: SocketId, gid: GroupId) returns (out: seq<Outbound>)
      requires Valid()
      requires gid in groups ==> sid in users
      modifies this
      ensures Valid()
      ensures gid !in old(groups) ==>
        && out == [Outbound(Requester, Error(GroupDoesNotExist))]
        && groups == old(groups) && users == old(users)
      ensures gid in old(groups) ==>
        var g := old(groups)[gid];
        && groups == old(groups)[gid := g.(members := AddIfAbsent(g.members, sid))]
        && users == old(users)[sid := old(users)[sid].(currentRoom := gid)]
        && out == [Outbound(Requester, LoadGroupMessages(gid, g.messages)),
                   Outbound(Room(gid), UserJoinedGroup(gid, old(users)[sid].username))]
      ensures gid in old(groups) ==> sid in groups[gid].members && users[sid].currentRoom == gid
      ensures groupOrder == old(groupOrder) && userOrder == old(userOrder)
      ensures globalMessages == old(globalMessages)
    {
      if gid !in groups {
        return [Outbound(Requester, Error(GroupDoesNotExist))];
      }
      var g := groups[gid];
      ReplaceGroupKeepsInvariants(groups, groupOrder, users, gid, g.(members := AddIfAbsent(g.members, sid)));
      MoveSessionKeepsDirectory(users, userOrder, sid, gid);
      groups := groups[gid := g.(members := AddIfAbsent(g.members, sid))];
      users := users[sid := users[sid].(currentRoom := gid)];
      out := [Outbound(Requester, LoadGroupMessages(gid, g.messages)),
              Outbound(Room(gid), UserJoinedGroup(gid, users[sid].username))];
    }

    /**
     * `group_message`: an unknown group gets an error to the requester and
     * nothing changes; otherwise the message is kept in the group's bounded
     * history and sent to the group's room. Membership is not checked.
     */
    method GroupMessage(sid: SocketId, gid: GroupId, text: string, clock: nat, timestamp: string)
      returns (out: seq<Outbound>)
      requires Valid()
      requires gid in groups ==> sid in users
      modifies this
      ensures Valid()
      ensures gid !in old(groups) ==>
        && out == [Outbound(Requester, Error(GroupDoesNotExist))]
        && groups == old(groups)
      ensures gid in old(groups) ==>
        var g := old(groups)[gid];
        var m := Message(clock, old(users)[sid].username, text, timestamp, GroupKind);
        && groups == old(groups)[gid := g.(messages := PushCapped(g.messages, m))]
        && out == [Outbound(Room(gid), ReceiveGroupMessage(gid, m))]
      ensures users == old(users) && userOrder == old(userOrder)
      ensures groupOrder == old(groupOrder) && globalMessages == old(globalMessages)
    {
      if gid !in groups {
        return [Outbound(Requester, Error(GroupDoesNotExist))];
      }
      var g := groups[gid];
      var m := Message(clock, users[sid].username, text, timestamp, GroupKind);
      ReplaceGroupKeepsInvariants(groups, groupOrder, users, gid, g.(messages := PushCapped(g.messages, m)));
      groups := groups[gid := g.(messages := PushCapped(g.messages, m))];
      out := [Outbound(Room(gid), ReceiveGroupMessage(gid, m))];
    }

    /**
     * `leave_group`: an unknown group is ignored silently; otherwise the caller
     * is filtered out of its members, put back in the global room, and the
     * departure is announced to the group's room. The model does not track
     * which sockets are in that room.
     */
    method LeaveGroup(sid: SocketId, gid: GroupId) returns (out: seq<Outbound>)
      requires Valid()
      requires gid in groups ==> sid in users
      modifies this
      ensures Valid()
      ensures gid !in old(groups) ==> out == [] && groups == old(groups) && users == old(users)
      ensures gid in old(groups) ==>
        var g := old(groups)[gid];
        && groups == old(groups)[gid := g.(members := RemoveAll(g.members, sid))]
        && users == old(users)[sid := old(users)[sid].(currentRoom := GLOBAL_ROOM)]
        && out == [Outbound(Room(gid), UserLeftGroup(gid, old(users)[sid].username))]
      ensures gid in old(groups) ==> sid !in groups[gid].members && users[sid].currentRoom == GLOBAL_ROOM
      ensures groupOrder == old(groupOrder) && userOrder == old(userOrder)
      ensures globalMessages == old(globalMessages)
    {
      if gid !in groups {
        return [];
      }
      var g := groups[gid];
      ReplaceGroupKeepsInvariants(groups, groupOrder, users, gid, g.(members := RemoveAll(g.members, sid)));
      MoveSessionKeepsDirectory(users, userOrder, sid, GLOBAL_ROOM);
      groups := groups[gid := g.(members := RemoveAll(g.members, sid))];
      users := users[sid := users[sid].(currentRoom := GLOBAL_ROOM)];
      out := [Outbound(Room(gid), UserLeftGroup(gid, users[sid].username))];
    }

    /** `get_users`: every session, to the requester only. */
    method GetUsers() returns (out: seq<Outbound>)
      requires Valid()
      ensures out == [Outbound(Requester, UserList(UsersList(users, userOrder)))]
      ensures var r := out[0].event.users;
        && |r| == |users|
        && (forall u :: u in users ==> users[u] in r)
        && (forall v :: v in r ==> v.id in users && users[v.id] == v)
    {
      UsersListCoversDirectory(users, userOrder);
      out := [Outbound(Requester, UserList(UsersList(users, userOrder)))];
    }

    /**
     * `disconnect`: without a session nothing happens; otherwise the socket is
     * filtered out of every group's members (groups themselves stay), the
     * departure is announced to all, and the session is deleted.
     */
    method Disconnect(sid: SocketId) returns (out: seq<Outbound>)
      requires Valid()
      modifies this
      ensures Valid()
      ensures sid !in old(users) ==> out == [] && groups == old(groups) && users == old(users) && userOrder == old(userOrder)
      ensures sid in old(users) ==>
        && groups == WithoutMember(old(groups), sid)
        && users == old(users) - {sid}
        && userOrder == RemoveAll(old(userOrder), sid)
        && out == [Outbound(All, UserLeft(old(users)[sid].username))]
      ensures sid !in users && forall g :: g in groups ==> sid !in groups[g].members
      ensures groups.Keys == old(groups).Keys
      ensures groupOrder == old(groupOrder) && globalMessages == old(globalMessages)
    {
      if sid !in users {
        return [];
      }
      var updated := RemoveMemberEverywhere(groups, groupOrder, sid);
      DisconnectKeepsInvariants(groups, groupOrder, users, userOrder, sid);
      groups := updated;
      out := [Outbound(All, UserLeft(users[sid].username))];
      users := users - {sid};
      userOrder := RemoveAll(userOrder, sid);
    }
  }
}
