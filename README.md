# Chat relay server: state and event handlers

A Dafny model of the core of a Socket.IO chat server (`server.js`). The server keeps
three pieces of in-memory state:

- `globalMessages`: the global chat history, capped at `MAX_MESSAGES = 10`;
- `groups`: group id → `{id, name, members, messages}`, each group with its own capped history;
- `users`: socket id → `{id, username, currentRoom}`, one session per connection that has joined.

Nine event handlers change this state and emit events. Each event goes to one of three
scopes: the requesting socket, one group's room, or every socket. The handlers are
`join`, `global_message`, `create_group`, `get_groups`, `join_group`, `group_message`,
`leave_group`, `get_users` and `disconnect`. The `getGroupsList` projection reports
each group with live member and message counts.

Files:

- `chat_types.dfy` (`ChatTypes`): messages, sessions, groups, the outbound events and their scopes.
- `history.dfy` (`History`): the push-then-shift-once bounded append. It is used for the
  global history and for every group's history. Proved: from any history within capacity,
  any run of appends leaves exactly the last ten messages, oldest first.
- `members.dfy` (`Members`): the guarded `push` and the `filter` on member lists.
  Proved: lists stay duplicate-free, removal takes out exactly one entry and keeps the
  order, and leaving right after joining restores the list when the socket was not
  a member before joining.
- `group_ids.dfy` (`GroupIds`): `'group_' + Date.now()` as the prefix followed by decimal
  digits. Proved: the decimal rendering has an inverse, so two creations get the same id
  exactly when they read the same clock value. An id never equals `"global"`.
- `registry.dfy` (`Registry`): the invariants of the two dictionaries and the two
  projections (`getGroupsList` and the `get_users` list). Also the `disconnect` loop
  over all groups, and the lemmas showing that each kind of update keeps the invariants.
- `server.dfy` (`ChatServer.Server`): the state as a class and one method per handler.
  Each state-changing method states the whole new state in terms of the old one, and the
  events it returns, in emission order. `GetGroups` and `GetUsers` change nothing and
  return the projection in key order. Every method preserves `Valid()`, which requires:
  - bounded histories;
  - duplicate-free member lists;
  - every group member has a session;
  - every session's room is `"global"` or an existing group;
  - the key-order sequences match the dictionaries.
- `scenarios.dfy` (`ChatScenarios`): short runs of handlers checked against the handler
  contracts alone. Example: eleven group messages leave ten in the history, and the first
  one is gone.

Modelling decisions:

- JavaScript walks an object's string keys in insertion order, except keys that are
  array indices (such as `"7"`), which come first in numeric order. No key of this
  server is an array index: a socket id is a 20-character Socket.IO id, and a group id
  starts with `group_`. A reassigned key keeps its place, and `delete` removes it. So each dictionary is a `map` plus a key-order `seq`,
  and `getGroupsList` and `get_users` list entries in that order.
- `Date.now()` becomes a `clock: nat` parameter. `new Date().toISOString()` becomes an
  opaque `timestamp: string` parameter.
- An event carries its structured fields only. The human-readable notice text built from
  those fields is not modelled, and the one error message is the enum value `GroupDoesNotExist`.
- `create_group` dereferences the caller's session unconditionally, so it requires a session.
- `join_group`, `group_message` and `leave_group` dereference the session only after
  finding the group, so they require `gid in groups ==> sid in users`. An unknown group
  stays a handled case.

Behaviours of the code that the model keeps:

- A socket can be a member of several groups at once. `create_group` and `join_group`
  never remove the caller from its previous group, so there is no single-channel invariant.
- Group ids are unique only across distinct clock readings. A second `create_group` in
  the same millisecond replaces the earlier group (`CreateGroup`, `GroupIdCollision`).
- `join` does not require an absent session. It overwrites the entry in place.
- `leave_group` on an unknown group is silent, with no error event.
- `group_message` does not check membership.
- `global_message` without a session is a silent no-op. It is not an error event.

## Model

| member | source | states |
|---|---|---|
| `ChatServer.Server.constructor` | server.js:19-23 | The server starts with no global history, no groups and no sessions, and the invariant holds. |
| `ChatServer.Server.Join` | server.js:35-53 | The session is stored as `{id, username, "global"}`, overwriting any earlier one and keeping its key position. The requester gets the current global history and everyone gets `user_joined`. Nothing else changes. |
| `ChatServer.Server.GlobalMessage` | server.js:56-77 | Without a session, nothing is sent and the history is unchanged. With one, the message is built from the session's username, the clock and the timestamp, and the history becomes the bounded append of it. Everyone receives it, and groups and sessions are unchanged. |
| `ChatServer.Server.CreateGroup` | server.js:80-104 | The group `group_<clock>` is stored with members exactly `[socketId]` and no messages, replacing any group under the same id and keeping its key position. The caller's room becomes the new id. The caller gets `group_created` and everyone gets the live group list. |
| `ChatServer.Server.GetGroups` | server.js:107-109 | Only the requester gets the list, which is `getGroupsList()` in key order. It has one entry per group, each equal to that group's summary with live counts. |
| `ChatServer.Server.JoinGroup` | server.js:112-144 | For an unknown group, only an error goes to the requester and no state changes. Otherwise the caller is appended to the members only if absent, and its room becomes the group. The requester gets the history and the group's room gets `user_joined_group`. No other group or session changes. |
| `ChatServer.Server.GroupMessage` | server.js:147-178 | For an unknown group, only an error goes to the requester and no state changes. Otherwise that group's history becomes the bounded append of the message, without any membership check, and the message goes to the group's room. |
| `ChatServer.Server.LeaveGroup` | server.js:181-199 | For an unknown group, nothing is sent and nothing changes. Otherwise exactly this socket is filtered out of the members, its room becomes `"global"`, and `user_left_group` goes to the group's room. |
| `ChatServer.Server.GetUsers` | server.js:202-209 | Only the requester gets the list, in key order. It has one `{id, username, currentRoom}` entry per session, each equal to the stored session. |
| `ChatServer.Server.Disconnect` | server.js:212-229 | Without a session it is a no-op. Otherwise the socket is filtered out of every group's members, no group is deleted, the session and its key are deleted, and everyone gets `user_left`. Afterwards the socket is in no group and has no session. |
| `History.PushCapped` | server.js:68-72 | The appended message is last. From a history within capacity, the result is within capacity and equals the last ten of history plus message. Below capacity nothing is dropped. At or above capacity exactly the oldest entry is dropped. |
| `History.ReplayKeepsLastN` | server.js:165-169 | After any sequence of appends to a history within capacity, the history equals the last `MAX_MESSAGES` of the old history followed by the new messages, oldest first. |
| `History.ReplayFromEmpty` | server.js:19-23 | From the empty start, after `n` appended messages the history has `min(n, 10)` entries: the newest ones, oldest first. |
| `History.LastNAppend` | server.js:70-71 | Truncating to the last `n` before appending more does not change the last `n` afterwards. This is why dropping once per push is enough. |
| `Members.RemoveAll` | server.js:187 | The filter removes every occurrence of the socket id and keeps exactly the other members. It never lengthens the list and keeps it duplicate-free. |
| `Members.RemoveExactlyOne` | server.js:219 | On a duplicate-free member list, filtering out `x` removes exactly that one entry and keeps the others in their order. |
| `Members.RemoveAllAbsent` | server.js:218-220 | Filtering a group the socket is not in leaves the member list unchanged. |
| `Members.AddIfAbsent` | server.js:123-125 | After the guarded push the socket is a member. The members are the old ones plus it, and a duplicate-free list stays duplicate-free. |
| `Members.JoinIdempotent` | server.js:123 | Joining twice equals joining once. The list grows by one exactly when the socket was absent. |
| `Members.LeaveAfterJoin` | server.js:186-187 | Leaving right after joining gives the list without the socket. If the socket was absent before joining, this is the original list. |
| `Members.KeyOrderLength` | server.js:233 | A duplicate-free key order listing a key set is as long as the set, so each projection has one entry per dictionary key. |
| `GroupIds.Decimal` | server.js:82 | The clock's rendering is a non-empty string of decimal digits with no leading zero, at least two digits from 10 on. |
| `GroupIds.ParseDecimalInverts` | server.js:82 | Reading back the decimal rendering of a number gives the number. |
| `GroupIds.GroupIdFor` | server.js:82 | Every group id strictly extends the prefix `group_` and never equals the global room marker `"global"`. |
| `GroupIds.GroupIdCollision` | server.js:82-90 | Two creations get the same group id if and only if they read the same clock value. |
| `Registry.GroupsList` | server.js:232-239 | The list has one entry per key in order, each with the group's id and name, `memberCount = members.length` and `messageCount = messages.length`. |
| `Registry.GroupsListCoversRegistry` | server.js:232-238 | In a well-formed registry, the list has exactly one entry per group, under its own id and with no repeats. Each entry equals that group's summary and reports at most `MAX_MESSAGES` messages. |
| `Registry.UsersList` | server.js:203-207 | The `get_users` list has one entry per key in order, each equal to the stored `{id, username, currentRoom}`. |
| `Registry.UsersListCoversDirectory` | server.js:203-208 | In a well-formed directory, the user list has exactly one entry per session, each equal to the stored session. |
| `Registry.WithoutMember` | server.js:218-220 | Every group stays under its key, with the socket filtered out of its members and everything else unchanged. |
| `Registry.RemoveMemberEverywhere` | server.js:218-220 | The `forEach` loop over the groups in key order returns exactly `WithoutMember` of the groups. |
| `Registry.WithoutMemberKeepsRegistry` | server.js:219 | Filtering a socket out of every group keeps the registry well formed, leaves the socket in no group, and never lengthens a member list. |
| `Registry.DisconnectKeepsInvariants` | server.js:213-228 | Filtering the socket out of every group and deleting its session keeps all invariants. No member without a session is left, and no room refers to a missing group. |
| `Registry.ReplaceGroupKeepsInvariants` | server.js:122-128 | Re-filing an existing group with a duplicate-free member list of sessions and a bounded history keeps all invariants. |
| `Registry.CreateGroupKeepsInvariants` | server.js:85-93 | Filing the new one-member group, replacing any group with that id, and moving the creator into it keeps all invariants. |
| `Registry.MoveSessionKeepsDirectory` | server.js:128 | Changing only a session's `currentRoom` keeps the directory well formed. |
| `ChatScenarios.GlobalMessageScenario` | server.js:56-75 | After alice joins and sends "hi", everyone receives a global message with her username and text. |
| `ChatScenarios.NoSessionScenario` | server.js:57-58 | A global message from a socket without a session sends nothing and stores nothing. |
| `ChatScenarios.CreateThenListScenario` | server.js:80-109 | After alice creates "team", bob's `get_groups` shows it once, with one member and no messages. |
| `ChatScenarios.JoinMissingGroupScenario` | server.js:117-120 | Joining a group that does not exist sends only an error to the requester and creates no group. |
| `ChatScenarios.ElevenGroupMessagesScenario` | server.js:165-169 | After eleven messages to one group, its history holds ten: the first is evicted and the eleventh is last. |

## Left out

- The Express app, static file serving, the `/` route, CORS settings, `server.listen` and
  `PORT` (server.js:1-16, 26-28, 241-244): HTTP plumbing and process start-up.
- Socket.IO delivery. The model tags each outbound event with its scope (requester,
  group room, everyone) but does not compute recipient sets. `socket.join` and
  `socket.leave` keep the transport's rooms in step with membership, and the transport
  drops disconnected sockets. These rooms are not modelled. For the same reason the model
  does not capture these differences:
  - after an id collision, members of the replaced group are still in its room;
  - the leaver of `leave_group` is no longer a recipient.
- The clock and the ISO timestamp: they are parameters, not read from a clock.
- `console.log` output, and the notice strings attached to `user_joined`, `group_created`,
  `user_joined_group`, `user_left_group`, `user_left` and `error`. These strings are
  derived from fields the events do carry.
- Concurrency. Node runs one handler at a time, so the model is sequential.
- Malformed payloads, such as a missing `data` object or missing fields. Payload fields
  are typed parameters.
- A handler that dereferences a missing session throws a TypeError. The model makes the
  session a precondition of those handlers instead, so it does not capture the effects
  that happen before the throw and leave a group member without a session:
  - `create_group` has already stored its group with the caller as member and called
    `socket.join` (server.js:85-92, thrown at :93);
  - `join_group` has already pushed the caller into the members and called
    `socket.join` (server.js:123-127, thrown at :128);
  - `leave_group` has already filtered the caller out of the members and called
    `socket.leave` (server.js:187-188, thrown at :189).
- ChatServer.Server.JoinGroup: `groups` is a plain object (server.js:20), so a group id
  naming an inherited `Object.prototype` property (`"constructor"`, `"toString"`,
  `"__proto__"` and the like) finds a truthy value and passes the unknown-group guard
  (server.js:117). `group.members.includes` then throws a TypeError (server.js:123)
  before any state changes and no event is sent. The model treats such an id as an
  unknown group and promises the error event.
- ChatServer.Server.GroupMessage: for the same inherited names the guard at
  server.js:152 passes and `group.messages.push` throws (server.js:166) with no state
  change and no event sent. The model promises the error event instead.
- ChatServer.Server.LeaveGroup: for the same inherited names the guard at server.js:186
  passes and `group.members.filter` throws (server.js:187) with no state change. The
  model treats the id as an unknown group, which is also silent and changes nothing.
- GroupIds.Decimal: renders every natural number in plain digits. JavaScript uses
  exponent notation from 1e21 on (`"1e+21"`), a value no `Date.now()` reading reaches.
