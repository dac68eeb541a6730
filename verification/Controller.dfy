/**
 The control job as the program runs it: loops that pop sessions from the
 intrusive queues and update the sessions and counters in place.
 */
module Control {
  import opened Types
  import opened ClientSpec
  import opened Census
  import opened Rings
  import opened Scheduler

  class Controller {
    const rates: Rates
    const sessions: array<Session>
    const idle: Ring
    const drain: Ring
    var init: bool
    var teardown: bool
    var request: bool
    var requests: nat
    var n: Counters

    ghost predicate Valid()
      reads this, sessions, idle, idle.next, idle.prev, drain, drain.next, drain.prev
    {
      && idle != drain && idle.Valid() && drain.Valid()
      && {idle.next, idle.prev} !! {drain.next, drain.prev}
      && idle.next.Length == drain.next.Length == sessions.Length
    }

    ghost function Snapshot(): Sched
      reads this, sessions, idle, drain
    {
      Sched(init, teardown, request, idle.items, drain.items, Fleet(sessions[..], n))
    }

    constructor (rates: Rates, ss: seq<Session>, autostart: bool)
      ensures Valid() && Snapshot() == Begin(ss, autostart) && this.rates == rates
      ensures fresh(sessions) && fresh(idle) && fresh(drain)
      ensures fresh(idle.next) && fresh(idle.prev) && fresh(drain.next) && fresh(drain.prev)
    {
      hide Holding;
      this.rates := rates;
      sessions := new Session[|ss|](i requires 0 <= i < |ss| => ss[i]);
      idle := new Ring(|ss|);
      drain := new Ring(|ss|);
      init, teardown, request, requests, n := true, false, false, 0, Counters(0, 0, 0);
      new;
      for i := 0 to |ss|
        invariant Valid() && idle.items == (if autostart then Missing([], i) else []) && drain.items == []
        invariant forall k :: 0 <= k < i ==> sessions[k] == ss[k].(state := if autostart then Idle else Terminated)
        invariant forall k :: i <= k < |ss| ==> sessions[k] == ss[k]
        invariant init && !teardown && !request && n == Counters(0, 0, if autostart then 0 else i)
      {
        MissingMeaning([], i);
        Admit(i, autostart);
      }
    }

    method Admit(i: nat, autostart: bool)
      requires Valid() && i < sessions.Length && i !in idle.items
      modifies `n, sessions, idle, idle.next, idle.prev
      ensures Valid() && drain.items == old(drain.items)
      ensures idle.items == if autostart then old(idle.items) + [i] else old(idle.items)
      ensures sessions[..] == old(sessions[..])[i := old(sessions[i]).(state := if autostart then Idle else Terminated)]
      ensures n == if autostart then old(n) else old(n).(terminated := old(n).terminated + 1)
    {
      hide Holding;
      if autostart {
        sessions[i] := sessions[i].(state := Idle);
        idle.InsertTail(i);
      } else {
        sessions[i] := sessions[i].(state := Terminated);
        n := n.(terminated := n.terminated + 1);
      }
    }

    method RequestTeardown()
      requires Valid()
      modifies this
      ensures Valid() && Snapshot() == old(Snapshot()).(teardown := true, request := true)
    {
      teardown, request, requests := true, true, requests + 1;
    }

    // bbl_session_start: a terminated session is reset and queued again. It is not
    // looked whether the session still is on the queue; if so, the queue is lost.
    method StartAgain(cfg: Config, i: nat) returns (ok: bool)
      requires Valid() && i < sessions.Length
      modifies `n, sessions, idle, idle.next, idle.prev
      ensures ok == (!teardown && old(sessions[i]).state.Terminated?)
      ensures !ok ==> Valid() && Snapshot() == old(Snapshot())
      ensures ok && i !in old(idle.items) ==> Valid() && Snapshot() == Rejoin(cfg, old(Snapshot()), i)
      ensures ok ==> ((exists q :: idle.Holds(q)) <==> i !in old(idle.items))
    {
      hide Holding, RestartSession;
      ok := !teardown && sessions[i].state.Terminated?;
      if ok {
        sessions[i] := RestartSession(cfg, sessions[i]);
        if n.terminated > 0 {
          n := n.(terminated := n.terminated - 1);
        }
        idle.InsertTail(i);
      }
    }

    // The stop command.
    method StopSession(i: nat)
      requires Valid() && i < sessions.Length
      modifies `n, sessions
      ensures Valid() && Snapshot() == Stop(old(Snapshot()), i)
    {
      hide ClearSession, Account;
      var before := sessions[i];
      sessions[i] := ClearSession(before);
      n := Account(n, before.state, sessions[i].state);
    }

    // Starts the first session of the idle queue.
    method StartFirst()
      requires Valid() && idle.items != []
      modifies `n, sessions, idle, idle.next, idle.prev
      ensures Valid() && 0 <= old(idle.items)[0] < sessions.Length
      ensures idle.items == old(idle.items)[1..] && drain.items == old(drain.items)
      ensures n == old(n).(outstanding := old(n).outstanding + 1)
      ensures sessions[..] == old(sessions[..])[old(idle.items)[0] := Launch(old(sessions[..])[old(idle.items)[0]])]
    {
      FirstOf(idle);
      hide Threaded, NullIffFree, Ends;
      var s := idle.first;
      n := n.(outstanding := n.outstanding + 1);
      sessions[s] := Launch(sessions[s]);
      idle.Remove(s, 0);
    }

    // Starts idle sessions as far as the rate and the cap allow.
    method StartTick()
      requires Valid()
      modifies `n, sessions, idle, idle.next, idle.prev
      ensures Valid() && Snapshot() == StartSome(rates, old(Snapshot()))
    {
      hide Launched, Launch, Ring.Valid;
      ghost var q := idle.items;
      ghost var ss := sessions[..];
      ghost var k := 0;
      NoneLaunched(ss);
      var rate := rates.start;
      var empty := idle.Empty();
      while !empty && rate > 0 && n.outstanding < rates.cap
        invariant Valid() && k <= |q| && idle.items == q[k..]
        invariant empty <==> k == |q|
        invariant rate == rates.start - k && n == old(n).(outstanding := old(n).outstanding + k)
        invariant k > 0 ==> n.outstanding <= rates.cap
        invariant sessions[..] == Launched(ss, q[..k])
        invariant drain.items == old(drain.items)
        decreases rate
      {
        StartFirst();
        LaunchedOne(ss, q, k);
        rate := rate - 1;
        k := k + 1;
        empty := idle.Empty();
      }
    }

    // Puts every session on the teardown queue that is not on it.
    method QueueAll()
      requires Valid()
      modifies drain, drain.next, drain.prev
      ensures Valid() && Snapshot() == old(Snapshot()).(drain := drain.items)
      ensures drain.items == old(drain.items) + Missing(old(drain.items), sessions.Length)
    {
      hide Holding;
      ghost var q := drain.items;
      QueuedInRange(drain);
      for i := 0 to sessions.Length
        invariant Valid() && drain.items == q + Missing(q, i)
        invariant unchanged(this) && unchanged(sessions) && unchanged(idle)
      {
        MissingMeaning(q, i);
        assert i in drain.items <==> i in q;
        QueuedIff(drain, i);
        if !drain.Queued(i) {
          drain.InsertTail(i);
        }
        assert drain.items == q + Missing(q, i + 1);
      }
    }

    // Clears the first session of the teardown queue.
    method ClearFirst() returns (wasIdle: bool)
      requires Valid() && drain.items != []
      modifies `n, sessions, drain, drain.next, drain.prev
      ensures Valid() && 0 <= old(drain.items)[0] < sessions.Length
      ensures drain.items == old(drain.items)[1..] && idle.items == old(idle.items)
      ensures var s := old(drain.items)[0];
        var before := old(sessions[..])[s];
        && wasIdle == before.state.Idle?
        && sessions[..] == old(sessions[..])[s := ClearSession(before)]
        && n == Account(old(n), before.state, ClearSession(before).state)
    {
      FirstOf(drain);
      hide Threaded, NullIffFree, Ends, ClearSession, Account;
      var s := drain.first;
      var before := sessions[s];
      wasIdle := before.state.Idle?;
      sessions[s] := ClearSession(before);
      n := Account(n, before.state, sessions[s].state);
      drain.Remove(s, 0);
    }

    // Clears queued sessions until the rate is used up by sessions that were not idle.
    method DrainTick()
      requires Valid()
      modifies `n, sessions, drain, drain.next, drain.prev
      ensures old(InRange(drain.items, sessions.Length))
      ensures Valid() && Snapshot() == DrainSome(rates, old(Snapshot()))
    {
      hide ClearSession, Account, Ring.Valid, DrainedTo, InRange, DrainLen, CountCleared, Cleared;
      QueuedInRange(drain);
      DrainedNone(sessions[..], drain.items, n, rates.stop);
      ghost var q := drain.items;
      ghost var ss := sessions[..];
      ghost var k := 0;
      var rate := rates.stop;
      var empty := drain.Empty();
      while !empty && rate > 0
        invariant Valid() && k <= |q| && drain.items == q[k..]
        invariant empty <==> k == |q|
        invariant DrainedTo(ss, q, old(n), rates.stop, k, rate, sessions[..], n)
        invariant idle.items == old(idle.items)
        decreases |q| - k
      {
        ghost var before, m := sessions[..], n;
        var wasIdle := ClearFirst();
        DrainedOne(ss, q, old(n), rates.stop, k, rate, before, m);
        if !wasIdle {
          rate := rate - 1;
        }
        k := k + 1;
        empty := drain.Empty();
      }
      DrainedAll(ss, q, old(n), rates.stop, k, rate, sessions[..], n);
    }

    // Waits for the gateways of the network interfaces of every link.
    method GatewaysResolved(links: seq<seq<NetworkInterface>>) returns (b: bool)
      ensures b <==> Resolved(links)
    {
      for i := 0 to |links|
        invariant forall k, j :: 0 <= k < i && 0 <= j < |links[k]| ==> !Awaited(links[k][j])
      {
        var link := links[i];
        for j := 0 to |link|
          invariant forall m :: 0 <= m < j ==> !Awaited(link[m])
        {
          if link[j].resolveWait {
            if link[j].gateway6 != 0 && !link[j].ndResolved {
              return false;
            }
            if link[j].gateway != 0 && !link[j].arpResolved {
              return false;
            }
          }
        }
      }
      b := true;
    }

    method CtrlJob(links: seq<seq<NetworkInterface>>, delayOver: bool)
      requires Valid()
      modifies this, sessions, idle, idle.next, idle.prev, drain, drain.next, drain.prev
      ensures old(InRange(drain.items, sessions.Length))
      ensures Valid() && Snapshot() == CtrlTick(rates, old(Snapshot()), Resolved(links), delayOver)
    {
      QueuedInRange(drain);
      if init && !teardown {
        var resolved := GatewaysResolved(links);
        if !resolved {
          return;
        }
        init := false;
      }
      if teardown {
        if request {
          QueueAll();
          request := false;
        } else {
          DrainTick();
        }
      } else {
        if !delayOver {
          return;
        }
        StartTick();
      }
    }
  }

  // ---- One pass of the loops

  lemma QueuedInRange(r: Ring)
    requires r.Valid()
    ensures InRange(r.items, r.next.Length) && Distinct(r.items)
  {
    forall i | 0 <= i < |r.items| ensures 0 <= r.items[i] < r.next.Length {
      assert LinkedAt(r.items, r.next[..], r.prev[..], i);
    }
  }

  lemma QueuedIff(r: Ring, i: nat)
    requires r.Valid() && i < r.next.Length
    ensures r.Queued(i) <==> i in r.items
  {
    assert r.next[..][i] == r.next[i];
  }

  lemma FirstOf(r: Ring)
    requires r.Valid() && r.items != []
    ensures r.first == r.items[0] && 0 <= r.first < r.next.Length
    ensures Without(r.items, 0) == r.items[1..]
  {
    assert LinkedAt(r.items, r.next[..], r.prev[..], 0);
  }

  lemma NoneLaunched(ss: seq<Session>)
    ensures Launched(ss, []) == ss
  {
  }

  // The sessions and counters after k sessions of q were cleared in this tick.
  ghost predicate DrainedTo(ss: seq<Session>, q: seq<int>, n: Counters, stop: nat,
                            k: nat, rate: nat, now: seq<Session>, m: Counters) {
    && InRange(q, |ss|) && Distinct(q) && k <= |q|
    && k + DrainLen(ss, q[k..], rate) == DrainLen(ss, q, stop)
    && now == Cleared(ss, q[..k])
    && m == CountCleared(n, ss, q[..k])
  }

  lemma DrainedNone(ss: seq<Session>, q: seq<int>, n: Counters, stop: nat)
    requires InRange(q, |ss|) && Distinct(q)
    ensures DrainedTo(ss, q, n, stop, 0, stop, ss, n)
  {
    hide ClearSession;
    assert q[0..] == q && q[..0] == [];
    assert Cleared(ss, []) == ss;
  }

  lemma DrainedOne(ss: seq<Session>, q: seq<int>, n: Counters, stop: nat,
                   k: nat, rate: nat, now: seq<Session>, m: Counters)
    requires DrainedTo(ss, q, n, stop, k, rate, now, m) && k < |q| && rate > 0
    ensures 0 <= q[k] < |now|
    ensures var s := now[q[k]];
      DrainedTo(ss, q, n, stop, k + 1, if s.state.Idle? then rate else rate - 1,
                now[q[k] := ClearSession(s)], Account(m, s.state, ClearSession(s).state))
  {
    hide ClearSession, Account;
    ClearedOne(ss, q, k);
    assert q[..k + 1][..k] == q[..k] && q[k..][1..] == q[k + 1..];
  }

  lemma DrainedAll(ss: seq<Session>, q: seq<int>, n: Counters, stop: nat,
                   k: nat, rate: nat, now: seq<Session>, m: Counters)
    requires DrainedTo(ss, q, n, stop, k, rate, now, m) && (k == |q| || rate == 0)
    ensures InRange(q, |ss|) && k == DrainLen(ss, q, stop)
    ensures now == Cleared(ss, q[..k]) && m == CountCleared(n, ss, q[..k])
  {
    hide ClearSession, Account;
  }
}
