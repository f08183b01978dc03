/** The values the chat server stores and the events it sends (server.js). */
module ChatTypes {

  /** Socket.IO connection ids and group ids are both plain strings. */
  type SocketId = string
  type GroupId = string

  /** The room a session is in when it is not in a group. */
  const GLOBAL_ROOM: string := "global"

  /** The `type` field of a chat message: 'global' or 'group'. */
  datatype MessageKind = GlobalKind | GroupKind

  /** A chat message; `id` is the clock reading at creation, `timestamp` its ISO rendering. */
  datatype Message = Message(id: int, username: string, text: string, timestamp: string, kind: MessageKind)

  /** An entry of `users`, keyed by socket id; `currentRoom` is "global" or a group id. */
  datatype User = User(id: SocketId, username: string, currentRoom: string)

  /** An entry of `groups`, keyed by group id. */
  datatype Group = Group(id: GroupId, name: string, members: seq<SocketId>, messages: seq<Message>)

  /** One row of the group list sent by `get_groups` and `create_group`. */
  datatype GroupSummary = GroupSummary(id: GroupId, name: string, memberCount: nat, messageCount: nat)

  /** The only error the server reports: the named group is not in `groups`. */
  datatype ErrorReason = GroupDoesNotExist

  /**
   * Outbound events, one constructor per event name. The human-readable notice
   * strings the server attaches to some of them are derived from the other
   * fields and are not modelled.
   */
  datatype Event =
    | LoadGlobalMessages(messages: seq<Message>)
    | UserJoined(username: string)
    | ReceiveGlobalMessage(message: Message)
    | GroupCreated(groupId: GroupId, groupName: string)
    | GroupListUpdated(groups: seq<GroupSummary>)
    | GroupList(groups: seq<GroupSummary>)
    | Error(reason: ErrorReason)
    | LoadGroupMessages(groupId: GroupId, messages: seq<Message>)
    | UserJoinedGroup(groupId: GroupId, username: string)
    | ReceiveGroupMessage(groupId: GroupId, message: Message)
    | UserLeftGroup(groupId: GroupId, username: string)
    | UserList(users: seq<User>)
    | UserLeft(username: string)

  /**
   * Who an event goes to: the requesting socket (`socket.emit`), the sockets in
   * one group's transport room (`io.to(groupId).emit`), or everyone (`io.emit`).
   */
  datatype Scope = Requester | Room(groupId: GroupId) | All

  datatype Outbound = Outbound(scope: Scope, event: Event)
}
