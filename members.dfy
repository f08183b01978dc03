/**
 * Operations on a group's member list: the `includes`-guarded `push` of
 * join_group and the `filter(id => id !== socketId)` of leave_group and
 * disconnect. The same removal also drops a socket id from the directory's
 * key order when its session is deleted.
 */
module Members {
  import opened ChatTypes

  /** No element occurs twice. */
  predicate NoDup(s: seq<SocketId>) {
    forall i, j :: 0 <= i < j < |s| ==> s[i] != s[j]
  }

  /** `s` with every occurrence of `x` removed, the rest kept in order. */
  function RemoveAll(s: seq<SocketId>, x: SocketId): (r: seq<SocketId>)
    ensures x !in r
    ensures forall y :: y in r <==> y in s && y != x
    ensures |r| <= |s|
    ensures NoDup(s) ==> NoDup(r)
  {
    if s == [] then []
    else if s[0] == x then RemoveAll(s[1..], x)
    else
      var rest := RemoveAll(s[1..], x);
      NoDupCons(s[0], rest);
      [s[0]] + rest
  }

  /** A fresh element in front of a duplicate-free list keeps it duplicate-free. */
  lemma NoDupCons(y: SocketId, s: seq<SocketId>)
    ensures NoDup([y] + s) <==> y !in s && NoDup(s)
  {
    if y !in s && NoDup(s) {
      forall i, j | 0 <= i < j < |[y] + s|
        ensures ([y] + s)[i] != ([y] + s)[j]
      {
        if i > 0 {
          assert ([y] + s)[i] == s[i - 1];
        }
      }
    }
    if NoDup([y] + s) {
      forall k | 0 <= k < |s|
        ensures s[k] != y
      {
        assert ([y] + s)[0] == y && ([y] + s)[k + 1] == s[k];
        assert ([y] + s)[0] != ([y] + s)[k + 1];
      }
      forall i, j | 0 <= i < j < |s|
        ensures s[i] != s[j]
      {
        assert ([y] + s)[i + 1] == s[i] && ([y] + s)[j + 1] == s[j];
      }
    }
  }

  /** `s` with `x` appended at the end, unless it is already there. */
  function AddIfAbsent(s: seq<SocketId>, x: SocketId): (r: seq<SocketId>)
    ensures x in r
    ensures forall y :: y in r <==> y in s || y == x
    ensures NoDup(s) ==> NoDup(r)
  {
    if x in s then s else s + [x]
  }

  /** Removing an element that is absent changes nothing. */
  lemma {:induction false} RemoveAllAbsent(s: seq<SocketId>, x: SocketId)
    requires x !in s
    ensures RemoveAll(s, x) == s
  {
    if s != [] {
      RemoveAllAbsent(s[1..], x);
    }
  }

  /** Removal works piecewise on a concatenation. */
  lemma {:induction false} RemoveAllConcat(a: seq<SocketId>, b: seq<SocketId>, x: SocketId)
    ensures RemoveAll(a + b, x) == RemoveAll(a, x) + RemoveAll(b, x)
  {
    if a == [] {
      assert a + b == b;
    } else {
      assert (a + b)[1..] == a[1..] + b;
      RemoveAllConcat(a[1..], b, x);
    }
  }

  /**
   * On a duplicate-free list, removing `x` takes out exactly that one entry and
   * leaves every other member where it was, in order.
   */
  lemma RemoveExactlyOne(before: seq<SocketId>, x: SocketId, after: seq<SocketId>)
    requires NoDup(before + [x] + after)
    ensures RemoveAll(before + [x] + after, x) == before + after
  {
    NoDupSplit(before, x, after);
    calc {
      RemoveAll(before + [x] + after, x);
      { RemoveAllConcat(before + [x], after, x); }
      RemoveAll(before + [x], x) + RemoveAll(after, x);
      { RemoveAllConcat(before, [x], x); }
      RemoveAll(before, x) + RemoveAll([x], x) + RemoveAll(after, x);
      { RemoveAllAbsent(before, x); RemoveAllAbsent(after, x); }
      before + RemoveAll([x], x) + after;
      { assert RemoveAll([x], x) == []; }
      before + after;
    }
  }

  /** In a duplicate-free list, an entry occurs neither before nor after its own position. */
  lemma NoDupSplit(before: seq<SocketId>, x: SocketId, after: seq<SocketId>)
    requires NoDup(before + [x] + after)
    ensures x !in before && x !in after
  {
    var s := before + [x] + after;
    assert s[|before|] == x;
    forall k | 0 <= k < |before|
      ensures before[k] != x
    {
      assert s[k] == before[k];
    }
    forall k | 0 <= k < |after|
      ensures after[k] != x
    {
      assert s[|before| + 1 + k] == after[k];
    }
  }

  /** Leaving right after joining gives the list without `x`, whether or not `x` was in it. */
  lemma LeaveAfterJoin(s: seq<SocketId>, x: SocketId)
    ensures RemoveAll(AddIfAbsent(s, x), x) == RemoveAll(s, x)
    ensures x !in s ==> RemoveAll(AddIfAbsent(s, x), x) == s
  {
    if x !in s {
      RemoveAllConcat(s, [x], x);
      assert RemoveAll([x], x) == [];
      RemoveAllAbsent(s, x);
      assert RemoveAll(s, x) + [] == RemoveAll(s, x);
    }
  }

  /** Joining twice is joining once: the member list does not grow. */
  lemma JoinIdempotent(s: seq<SocketId>, x: SocketId)
    ensures AddIfAbsent(AddIfAbsent(s, x), x) == AddIfAbsent(s, x)
    ensures |AddIfAbsent(s, x)| == if x in s then |s| else |s| + 1
  {
  }

  /** A duplicate-free key order is exactly as long as the key set it lists. */
  lemma {:induction false} KeyOrderLength(keys: set<SocketId>, order: seq<SocketId>)
    requires NoDup(order)
    requires forall k :: k in keys <==> k in order
    ensures |order| == |keys|
    decreases |order|
  {
    if order != [] {
      var last := order[|order| - 1];
      var front := order[..|order| - 1];
      assert order == front + [last];
      forall i, j | 0 <= i < j < |front|
        ensures front[i] != front[j]
      {
        assert front[i] == order[i] && front[j] == order[j];
      }
      forall k | 0 <= k < |front|
        ensures front[k] != last
      {
        assert front[k] == order[k];
      }
      forall k
        ensures k in keys - {last} <==> k in front
      {
        if k in front {
          var i :| 0 <= i < |front| && front[i] == k;
          assert order[i] == k;
        }
      }
      KeyOrderLength(keys - {last}, front);
    }
  }
}
