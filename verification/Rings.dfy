/**
 The intrusive circular queues that hold sessions: every session has a forward
 and a backward link per queue, the head closes the ring, and a null forward
 link is how the program recognises a session that is not queued. Links are
 indices into the session list.
 */
module Rings {

  const HEAD := -1
  const NULL := -2

  predicate Distinct(q: seq<int>) {
    forall i, j :: 0 <= i < j < |q| ==> q[i] != q[j]
  }

  function Successor(q: seq<int>, i: nat): int
    requires i < |q|
  {
    if i + 1 < |q| then q[i + 1] else HEAD
  }

  function Predecessor(q: seq<int>, i: nat): int
    requires i < |q|
  {
    if i > 0 then q[i - 1] else HEAD
  }

  predicate Ends(q: seq<int>, first: int, last: int) {
    if q == [] then first == HEAD && last == HEAD else first == q[0] && last == q[|q| - 1]
  }

  // The links of the session at position i of q.
  predicate LinkedAt(q: seq<int>, next: seq<int>, prev: seq<int>, i: nat)
    requires i < |q|
  {
    && 0 <= q[i] < |next| == |prev|
    && next[q[i]] == Successor(q, i)
    && prev[q[i]] == Predecessor(q, i)
  }

  // The links thread exactly the sessions of q, in order and in both directions.
  ghost predicate Threaded(q: seq<int>, next: seq<int>, prev: seq<int>) {
    && |next| == |prev|
    && Distinct(q)
    && forall i :: 0 <= i < |q| ==> LinkedAt(q, next, prev, i)
  }

  ghost predicate NullIffFree(q: seq<int>, next: seq<int>) {
    forall s :: 0 <= s < |next| ==> (next[s] == NULL <==> s !in q)
  }

  ghost predicate Holding(q: seq<int>, first: int, last: int, next: seq<int>, prev: seq<int>) {
    Ends(q, first, last) && Threaded(q, next, prev) && NullIffFree(q, next)
  }

  class Ring {
    var first: int
    var last: int
    const next: array<int>
    const prev: array<int>
    ghost var items: seq<int>

    // The links hold exactly this queue.
    ghost predicate Holds(q: seq<int>)
      reads this, next, prev
    {
      Holding(q, first, last, next[..], prev[..])
    }

    ghost predicate Valid()
      reads this, next, prev
    {
      next != prev && Holds(items)
    }

    constructor (sessions: nat)
      ensures Valid() && items == [] && fresh(next) && fresh(prev) && next.Length == sessions
    {
      first, last, items := HEAD, HEAD, [];
      next := new int[sessions](_ => NULL);
      prev := new int[sessions](_ => NULL);
    }

    method Empty() returns (b: bool)
      requires Valid()
      ensures b <==> items == []
    {
      assert items != [] ==> LinkedAt(items, next[..], prev[..], 0);
      b := first == HEAD;
    }

    predicate Queued(s: nat)
      requires s < next.Length
      reads this, next
    {
      next[s] != NULL
    }

    // The macro does not look whether the session is queued already. If it is not,
    // it becomes the last one; if it is, the links hold no queue any more.
    method InsertTail(s: nat)
      requires Valid() && s < next.Length
      modifies this, next, prev
      ensures s !in old(items) ==> Valid() && items == old(items) + [s]
      ensures (exists q :: Holds(q)) <==> s !in old(items)
    {
      ghost var q, n, p := items, next[..], prev[..];
      assert q != [] ==> LinkedAt(q, n, p, |q| - 1);
      InsertLinksIff(q, first, last, n, p, s);
      hide Threaded, NullIffFree, Distinct, Ends;
      next[s] := HEAD;
      prev[s] := last;
      if last == HEAD {
        first := s;
      } else {
        next[last] := s;
      }
      last := s;
      items := items + [s];
      assert next[..] == InsertedNext(q, n, s) && prev[..] == InsertedPrev(q, p, s);
      assert forall r :: Holds(r) <==> Holding(r, first, last, InsertedNext(q, n, s), InsertedPrev(q, p, s));
    }

    // Unlinks a session and marks it as not queued.
    method Remove(s: nat, ghost k: nat)
      requires Valid() && k < |items| && items[k] == s
      modifies this, next, prev
      ensures Valid() && items == Without(old(items), k)
      ensures s !in items
    {
      ghost var q, n, p := items, next[..], prev[..];
      RemoveLinks(q, n, p, k);
      assert LinkedAt(q, n, p, k);
      hide Threaded, NullIffFree, Distinct;
      if next[s] == HEAD {
        last := prev[s];
      } else {
        prev[next[s]] := prev[s];
      }
      if prev[s] == HEAD {
        first := next[s];
      } else {
        next[prev[s]] := next[s];
      }
      next[s] := NULL;
      prev[s] := NULL;
      items := Without(items, k);
    }
  }

  // ---- The effect of the link updates on the contents

  function InsertedNext(q: seq<int>, next: seq<int>, s: nat): seq<int>
    requires s < |next| && (q != [] ==> 0 <= q[|q| - 1] < |next|)
  {
    if q == [] then next[s := HEAD] else next[s := HEAD][q[|q| - 1] := s]
  }

  function InsertedPrev(q: seq<int>, prev: seq<int>, s: nat): seq<int>
    requires s < |prev|
  {
    prev[s := if q == [] then HEAD else q[|q| - 1]]
  }

  lemma InsertLinks(q: seq<int>, next: seq<int>, prev: seq<int>, s: nat)
    requires Threaded(q, next, prev) && NullIffFree(q, next) && s < |next| && s !in q
    ensures q != [] ==> 0 <= q[|q| - 1] < |next|
    ensures Threaded(q + [s], InsertedNext(q, next, s), InsertedPrev(q, prev, s))
    ensures NullIffFree(q + [s], InsertedNext(q, next, s))
  {
    var last := |q| - 1;
    assert q != [] ==> LinkedAt(q, next, prev, last);
    var n, p := InsertedNext(q, next, s), InsertedPrev(q, prev, s);
    forall i | 0 <= i <= |q| ensures LinkedAt(q + [s], n, p, i) {
      if i < |q| {
        assert LinkedAt(q, next, prev, i);
        assert i < last ==> q[i] != q[last];
      }
    }
    forall t | 0 <= t < |n| ensures n[t] == NULL <==> t !in q + [s] {
      assert t in q + [s] <==> t in q || t == s;
    }
  }

  // A queue that starts like q and is threaded by the new links follows q up to
  // the session that was inserted again.
  lemma {:induction false} FollowsUpTo(q: seq<int>, next: seq<int>, prev: seq<int>, k: nat, r: seq<int>, i: nat)
    requires Threaded(q, next, prev) && k < |q| && i <= k && q != [] && 0 <= q[|q| - 1] < |next| && 0 <= q[k] < |next|
    requires r != [] && r[0] == q[0]
    requires Threaded(r, InsertedNext(q, next, q[k]), InsertedPrev(q, prev, q[k]))
    ensures i < |r| && r[i] == q[i]
  {
    if i > 0 {
      FollowsUpTo(q, next, prev, k, r, i - 1);
      assert LinkedAt(q, next, prev, i - 1);
      assert LinkedAt(r, InsertedNext(q, next, q[k]), InsertedPrev(q, prev, q[k]), i - 1);
      assert q[i - 1] != q[k] && q[i - 1] != q[|q| - 1];
      assert LinkedAt(q, next, prev, i);
    }
  }

  // Inserting a queued session again: its forward link now leads to the head, which
  // cuts off the sessions behind it, or to itself. No queue is threaded any more.
  lemma ReinsertBreaks(q: seq<int>, first: int, last: int, next: seq<int>, prev: seq<int>, k: nat, r: seq<int>)
    requires Holding(q, first, last, next, prev) && k < |q|
    ensures 0 <= q[|q| - 1] < |next| && 0 <= q[k] < |next|
    ensures InsertedNext(q, next, q[k])[q[k]] == if k + 1 < |q| then HEAD else q[k]
    ensures !Holding(r, first, q[k], InsertedNext(q, next, q[k]), InsertedPrev(q, prev, q[k]))
  {
    assert LinkedAt(q, next, prev, |q| - 1) && LinkedAt(q, next, prev, k) && LinkedAt(q, next, prev, 0);
    var s := q[k];
    var n, p := InsertedNext(q, next, s), InsertedPrev(q, prev, s);
    assert k + 1 < |q| ==> s != q[|q| - 1];
    if Holding(r, first, s, n, p) {
      FollowsUpTo(q, next, prev, k, r, k);
      assert LinkedAt(r, n, p, k);
      if k + 1 < |q| {
        CutOff(q, next, prev, k, r);
      }
    }
  }

  lemma CutOff(q: seq<int>, next: seq<int>, prev: seq<int>, k: nat, r: seq<int>)
    requires Threaded(q, next, prev) && NullIffFree(q, next) && k + 1 < |q|
    requires 0 <= q[|q| - 1] < |next| && 0 <= q[k] < |next|
    requires |r| == k + 1 && r[0] == q[0] && Threaded(r, InsertedNext(q, next, q[k]), InsertedPrev(q, prev, q[k]))
    ensures !NullIffFree(r, InsertedNext(q, next, q[k]))
  {
    assert LinkedAt(q, next, prev, k + 1);
    var t := q[k + 1];
    assert InsertedNext(q, next, q[k])[t] != NULL;
    forall i | 0 <= i < |r| ensures r[i] != t {
      FollowsUpTo(q, next, prev, k, r, i);
    }
  }

  // The insertion leaves a queue in the links exactly when the session was free.
  lemma InsertLinksIff(q: seq<int>, first: int, last: int, next: seq<int>, prev: seq<int>, s: nat)
    requires Holding(q, first, last, next, prev) && s < |next|
    ensures |prev| == |next| && (q != [] ==> 0 <= q[|q| - 1] < |next|)
    ensures var f := if q == [] then s else first;
      var n, p := InsertedNext(q, next, s), InsertedPrev(q, prev, s);
      && (s !in q ==> Holding(q + [s], f, s, n, p))
      && (s in q ==> forall r :: !Holding(r, f, s, n, p))
  {
    assert q != [] ==> LinkedAt(q, next, prev, |q| - 1);
    if s in q {
      var k :| 0 <= k < |q| && q[k] == s;
      forall r ensures !Holding(r, first, s, InsertedNext(q, next, s), InsertedPrev(q, prev, s)) {
        ReinsertBreaks(q, first, last, next, prev, k, r);
      }
    } else {
      InsertLinks(q, next, prev, s);
    }
  }

  function Without(q: seq<int>, k: nat): seq<int>
    requires k < |q|
  {
    q[..k] + q[k + 1..]
  }

  lemma WithoutDistinct(q: seq<int>, k: nat)
    requires Distinct(q) && k < |q|
    ensures Distinct(Without(q, k)) && q[k] !in Without(q, k)
    ensures forall t :: t in Without(q, k) <==> t in q && t != q[k]
  {
    forall t | t in q && t != q[k] ensures t in Without(q, k) {
      var i :| 0 <= i < |q| && q[i] == t;
      assert Without(q, k)[if i < k then i else i - 1] == t;
    }
  }

  lemma RemoveLinks(q: seq<int>, next: seq<int>, prev: seq<int>, k: nat)
    requires Threaded(q, next, prev) && NullIffFree(q, next) && k < |q|
    ensures k > 0 ==> 0 <= q[k - 1] < |next|
    ensures k + 1 < |q| ==> 0 <= q[k + 1] < |next|
    ensures 0 <= q[k] < |next|
    ensures var r := Without(q, k);
      var n := if k == 0 then next else next[q[k - 1] := Successor(q, k)];
      var p := if k + 1 == |q| then prev else prev[q[k + 1] := Predecessor(q, k)];
      Threaded(r, n[q[k] := NULL], p[q[k] := NULL]) && NullIffFree(r, n[q[k] := NULL]) && q[k] !in r
  {
    assert LinkedAt(q, next, prev, k);
    assert k > 0 ==> LinkedAt(q, next, prev, k - 1);
    assert k + 1 < |q| ==> LinkedAt(q, next, prev, k + 1);
    var r := Without(q, k);
    var n := (if k == 0 then next else next[q[k - 1] := Successor(q, k)])[q[k] := NULL];
    var p := (if k + 1 == |q| then prev else prev[q[k + 1] := Predecessor(q, k)])[q[k] := NULL];
    WithoutDistinct(q, k);
    forall i | 0 <= i < |r| ensures LinkedAt(r, n, p, i) {
      RemoveAt(q, next, prev, k, i);
    }
    forall t | 0 <= t < |n| ensures n[t] == NULL <==> t !in r {
      assert t in r <==> t in q && t != q[k];
    }
  }

  lemma RemoveAt(q: seq<int>, next: seq<int>, prev: seq<int>, k: nat, i: nat)
    requires Threaded(q, next, prev) && k < |q| && i < |q| - 1
    ensures 0 <= q[k] < |next| && (k > 0 ==> 0 <= q[k - 1] < |next|) && (k + 1 < |q| ==> 0 <= q[k + 1] < |next|)
    ensures LinkedAt(Without(q, k),
                     (if k == 0 then next else next[q[k - 1] := Successor(q, k)])[q[k] := NULL],
                     (if k + 1 == |q| then prev else prev[q[k + 1] := Predecessor(q, k)])[q[k] := NULL], i)
  {
    assert LinkedAt(q, next, prev, k);
    assert k > 0 ==> LinkedAt(q, next, prev, k - 1);
    assert k + 1 < |q| ==> LinkedAt(q, next, prev, k + 1);
    var j := if i < k then i else i + 1;
    assert LinkedAt(q, next, prev, j);
    assert Without(q, k)[i] == q[j] != q[k];
    assert k > 0 && i != k - 1 ==> q[j] != q[k - 1];
    assert i != k ==> j != k + 1;
  }
}
