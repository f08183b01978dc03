/**
 * Bounded message history: the push-then-shift-once idiom the server uses for
 * the global history and for every group's history.
 */
module History {
  import opened ChatTypes

  /** Capacity of every history. */
  const MAX_MESSAGES: nat := 10

  /** The last `n` entries of `s` (all of `s` when it is shorter), oldest first. */
  function LastN(s: seq<Message>, n: nat): (r: seq<Message>)
    ensures |r| == if |s| <= n then |s| else n
  {
    if |s| <= n then s else s[|s| - n..]
  }

  /**
   * Append `m`, then drop the oldest entry once if the result is over capacity.
   * From a history within capacity this keeps exactly the last MAX_MESSAGES
   * messages; from one already over capacity it would not shrink it.
   */
  function PushCapped(history: seq<Message>, m: Message): (r: seq<Message>)
    ensures |r| > 0 && r[|r| - 1] == m
    ensures |history| <= MAX_MESSAGES ==> |r| <= MAX_MESSAGES && r == LastN(history + [m], MAX_MESSAGES)
    ensures |history| < MAX_MESSAGES ==> r == history + [m]
    ensures |history| >= MAX_MESSAGES ==> |r| == |history| && r == history[1..] + [m]
  {
    var pushed := history + [m];
    if |pushed| > MAX_MESSAGES then pushed[1..] else pushed
  }

  /** The history after the messages of `incoming` are pushed one at a time, in order. */
  function Replay(history: seq<Message>, incoming: seq<Message>): (r: seq<Message>)
    decreases |incoming|
  {
    if incoming == [] then history
    else Replay(PushCapped(history, incoming[0]), incoming[1..])
  }

  /** Truncating to the last `n` before appending more does not change the last `n` after. */
  lemma LastNAppend(s: seq<Message>, t: seq<Message>, n: nat)
    ensures LastN(LastN(s, n) + t, n) == LastN(s + t, n)
  {
  }

  /**
   * Whatever the messages pushed, a history that starts within capacity ends as
   * the last MAX_MESSAGES of the old history followed by them, oldest first.
   */
  lemma {:induction false} ReplayKeepsLastN(history: seq<Message>, incoming: seq<Message>)
    requires |history| <= MAX_MESSAGES
    ensures Replay(history, incoming) == LastN(history + incoming, MAX_MESSAGES)
    decreases |incoming|
  {
    if incoming == [] {
      assert history + incoming == history;
    } else {
      var first, rest := incoming[0], incoming[1..];
      var pushed := PushCapped(history, first);
      calc {
        Replay(history, incoming);
        Replay(pushed, rest);
        { ReplayKeepsLastN(pushed, rest); }
        LastN(pushed + rest, MAX_MESSAGES);
        LastN(LastN(history + [first], MAX_MESSAGES) + rest, MAX_MESSAGES);
        { LastNAppend(history + [first], rest, MAX_MESSAGES); }
        LastN((history + [first]) + rest, MAX_MESSAGES);
        { assert (history + [first]) + rest == history + incoming; }
        LastN(history + incoming, MAX_MESSAGES);
      }
    }
  }

  /**
   * Starting from the empty history (server start), after `n` messages the
   * history holds min(n, MAX_MESSAGES) of them: the newest, oldest first.
   */
  lemma ReplayFromEmpty(incoming: seq<Message>)
    ensures var r := Replay([], incoming);
      && |r| == (if |incoming| <= MAX_MESSAGES then |incoming| else MAX_MESSAGES)
      && r == incoming[|incoming| - |r|..]
  {
    ReplayKeepsLastN([], incoming);
    assert [] + incoming == incoming;
  }
}
