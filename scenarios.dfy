/**
 * Client runs of the server that follow the handlers' contracts alone: what a
 * sequence of events is promised to produce.
 */
module ChatScenarios {
  import opened ChatTypes
  import opened History
  import opened GroupIds
  import opened ChatServer

  /** Alice joins and says "hi": every socket receives the message as a global one from her. */
  method GlobalMessageScenario() returns (out: seq<Outbound>)
    ensures out == [Outbound(All, ReceiveGlobalMessage(Message(1, "alice", "hi", "t1", GlobalKind)))]
  {
    var server := new Server();
    var _ := server.Join("A", "alice");
    out := server.GlobalMessage("A", "hi", 1, "t1");
  }

  /** A socket without a session sends a global message: nothing is sent and no history is kept. */
  method NoSessionScenario() returns (out: seq<Outbound>, history: seq<Message>)
    ensures out == [] && history == []
  {
    var server := new Server();
    out := server.GlobalMessage("A", "hi", 1, "t1");
    history := server.globalMessages;
  }

  /** Alice creates "team"; Bob, who joined later, asks for the groups and sees it with one member and no messages. */
  method CreateThenListScenario() returns (listed: seq<GroupSummary>)
    ensures GroupSummary(GroupIdFor(5), "team", 1, 0) in listed
    ensures |listed| == 1
  {
    var server := new Server();
    var _ := server.Join("A", "alice");
    var _ := server.CreateGroup("A", "team", 5);
    var _ := server.Join("B", "bob");
    var out := server.GetGroups();
    listed := out[0].event.groups;
  }

  /** Bob asks to join a group that does not exist: only Bob hears of it, as an error. */
  method JoinMissingGroupScenario() returns (out: seq<Outbound>, groupCount: nat)
    ensures out == [Outbound(Requester, Error(GroupDoesNotExist))]
    ensures groupCount == 0
  {
    var server := new Server();
    var _ := server.Join("B", "bob");
    out := server.JoinGroup("B", "nonexistent");
    groupCount := |server.groups|;
  }

  /** The messages of the eleven-message run: the k-th one carries clock value k. */
  function Sent(count: nat): (r: seq<Message>)
    ensures |r| == count
    ensures forall k :: 0 <= k < count ==> r[k].id == k + 1
  {
    if count == 0 then [] else Sent(count - 1) + [Message(count, "alice", "m", "t", GroupKind)]
  }

  /** Eleven messages to one group: the history keeps ten, the first is gone and the eleventh is last. */
  method ElevenGroupMessagesScenario() returns (history: seq<Message>)
    ensures |history| == MAX_MESSAGES
    ensures history[0].id == 2 && history[MAX_MESSAGES - 1].id == 11
  {
    var server := new Server();
    var _ := server.Join("A", "alice");
    var _ := server.CreateGroup("A", "team", 0);
    var gid := GroupIdFor(0);
    var n := 1;
    while n <= 11
      invariant 1 <= n <= 12
      invariant server.Valid() && gid in server.groups && "A" in server.users
      invariant server.users["A"].username == "alice"
      invariant server.groups[gid].messages == LastN(Sent(n - 1), MAX_MESSAGES)
    {
      var m := Message(n, "alice", "m", "t", GroupKind);
      ghost var before := server.groups[gid].messages;
      var _ := server.GroupMessage("A", gid, "m", n, "t");
      assert server.groups[gid].messages == PushCapped(before, m);
      assert server.groups[gid].messages == LastN(Sent(n - 1) + [m], MAX_MESSAGES) by {
        LastNAppend(Sent(n - 1), [m], MAX_MESSAGES);
      }
      n := n + 1;
    }
    history := server.groups[gid].messages;
    ghost var all := Sent(n - 1);
    assert history == all[1..];
    assert history[0] == all[1] && history[MAX_MESSAGES - 1] == all[10];
  }
}
