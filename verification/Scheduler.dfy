/**
 The periodic control job: it waits for the network interfaces, starts idle
 sessions at a limited rate below the cap on outstanding sessions, and after a
 teardown request clears all sessions at a limited rate. This module states what
 one tick does and proves what runs of ticks, requests and session events do.
 */
module Scheduler {
  import opened Types
  import opened ClientSpec
  import opened Census
  import opened Rings

  datatype Rates = Rates(start: nat, stop: nat, cap: nat)

  datatype NetworkInterface = NetworkInterface(
    resolveWait: bool, gateway6: nat, ndResolved: bool, gateway: nat, arpResolved: bool)

  // An interface whose gateway has to be resolved first and is not.
  predicate Awaited(n: NetworkInterface) {
    n.resolveWait && ((n.gateway6 != 0 && !n.ndResolved) || (n.gateway != 0 && !n.arpResolved))
  }

  // The network interfaces of every link are done.
  predicate Resolved(links: seq<seq<NetworkInterface>>) {
    forall i, j :: 0 <= i < |links| && 0 <= j < |links[i]| ==> !Awaited(links[i][j])
  }

  datatype Sched = Sched(init: bool, teardown: bool, request: bool, idle: seq<int>, drain: seq<int>, f: Fleet)

  ghost predicate InRange(q: seq<int>, n: nat) {
    forall i :: 0 <= i < |q| ==> 0 <= q[i] < n
  }

  // ---- Starting

  function Launch(s: Session): Session {
    s.(state := PppoeInit, send := {SendDiscovery})
  }

  function Launched(ss: seq<Session>, q: seq<int>): seq<Session> {
    seq(|ss|, i requires 0 <= i < |ss| => if i in q then Launch(ss[i]) else ss[i])
  }

  function StartCount(r: Rates, outstanding: nat, queued: nat): nat {
    var room := if outstanding < r.cap then r.cap - outstanding else 0;
    var n := if r.start < room then r.start else room;
    if n < queued then n else queued
  }

  function StartSome(r: Rates, s: Sched): Sched {
    var k := StartCount(r, s.f.n.outstanding, |s.idle|);
    s.(idle := s.idle[k..],
       f := Fleet(Launched(s.f.sessions, s.idle[..k]), s.f.n.(outstanding := s.f.n.outstanding + k)))
  }

  // ---- Clearing

  function Cleared(ss: seq<Session>, q: seq<int>): seq<Session> {
    seq(|ss|, i requires 0 <= i < |ss| => if i in q then ClearSession(ss[i]) else ss[i])
  }

  ghost function CountCleared(n: Counters, ss: seq<Session>, q: seq<int>): Counters
    requires InRange(q, |ss|)
  {
    if q == [] then n
    else
      var last := |q| - 1;
      Account(CountCleared(n, ss, q[..last]), ss[q[last]].state, ClearSession(ss[q[last]]).state)
  }

  // The sessions of a queue that cost stop rate.
  ghost function NonIdle(ss: seq<Session>, q: seq<int>): nat
    requires InRange(q, |ss|)
  {
    if q == [] then 0
    else NonIdle(ss, q[..|q| - 1]) + (if ss[q[|q| - 1]].state.Idle? then 0 else 1)
  }

  // How many sessions one drain tick takes from the queue.
  ghost function DrainLen(ss: seq<Session>, q: seq<int>, rate: nat): (k: nat)
    requires InRange(q, |ss|)
    ensures k <= |q|
  {
    if q == [] || rate == 0 then 0
    else 1 + DrainLen(ss, q[1..], if ss[q[0]].state.Idle? then rate else rate - 1)
  }

  ghost function DrainSome(r: Rates, s: Sched): Sched
    requires InRange(s.drain, |s.f.sessions|)
  {
    var k := DrainLen(s.f.sessions, s.drain, r.stop);
    s.(drain := s.drain[k..],
       f := Fleet(Cleared(s.f.sessions, s.drain[..k]), CountCleared(s.f.n, s.f.sessions, s.drain[..k])))
  }

  // The sessions below n that are not queued, in the order of the session list.
  function Missing(q: seq<int>, n: nat): seq<int> {
    if n == 0 then [] else Missing(q, n - 1) + (if n - 1 in q then [] else [n - 1])
  }

  lemma LaunchedOne(ss: seq<Session>, q: seq<int>, k: nat)
    requires k < |q| && 0 <= q[k] < |ss|
    ensures Launched(ss, q[..k + 1]) == Launched(ss, q[..k])[q[k] := Launch(Launched(ss, q[..k])[q[k]])]
  {
    assert q[..k + 1] == q[..k] + [q[k]];
  }

  lemma ClearedOne(ss: seq<Session>, q: seq<int>, k: nat)
    requires k < |q| && 0 <= q[k] < |ss|
    ensures Cleared(ss, q[..k + 1]) == Cleared(ss, q[..k])[q[k] := ClearSession(ss[q[k]])]
    ensures q[k] !in q[..k] ==> Cleared(ss, q[..k])[q[k]] == ss[q[k]]
  {
    hide ClearSession;
    assert q[..k + 1] == q[..k] + [q[k]];
  }

  // ---- One tick of the control job

  ghost function CtrlTick(r: Rates, s: Sched, resolved: bool, delayOver: bool): Sched
    requires InRange(s.drain, |s.f.sessions|)
  {
    if s.init && !s.teardown && !resolved then s
    else if s.teardown then
      if s.request then s.(drain := s.drain + Missing(s.drain, |s.f.sessions|), request := false)
      else DrainSome(r, s)
    else if delayOver then StartSome(r, s.(init := false))
    else s.(init := false)
  }

  // ---- The beginning, and commands

  // All sessions wait to be started, in the order of the list, or none does.
  function Begin(ss: seq<Session>, autostart: bool): Sched {
    var initial := if autostart then Idle else Terminated;
    Sched(true, false, false, if autostart then Missing([], |ss|) else [], [],
          Fleet(seq(|ss|, i requires 0 <= i < |ss| => ss[i].(state := initial)),
                Counters(0, 0, if autostart then 0 else |ss|)))
  }

  // The session is reset and waits for its start again.
  function Rejoin(cfg: Config, s: Sched, i: nat): Sched
    requires i < |s.f.sessions|
  {
    var n := s.f.n;
    s.(idle := s.idle + [i],
       f := Fleet(s.f.sessions[i := RestartSession(cfg, s.f.sessions[i])],
                  if n.terminated > 0 then n.(terminated := n.terminated - 1) else n))
  }

  function Stop(s: Sched, i: nat): Sched
    requires i < |s.f.sessions|
  {
    var t := ClearSession(s.f.sessions[i]);
    s.(f := Fleet(s.f.sessions[i := t], Account(s.f.n, s.f.sessions[i].state, t.state)))
  }

  // ---- What the counts mean

  lemma {:induction false} NonIdleFront(ss: seq<Session>, q: seq<int>)
    requires InRange(q, |ss|) && q != []
    ensures NonIdle(ss, q) == (if ss[q[0]].state.Idle? then 0 else 1) + NonIdle(ss, q[1..])
  {
    if |q| > 1 {
      NonIdleFront(ss, q[..|q| - 1]);
      assert q[..|q| - 1][1..] == q[1..][..|q| - 2];
    }
  }

  lemma {:induction false} NonIdleGrows(ss: seq<Session>, q: seq<int>, j: nat, k: nat)
    requires InRange(q, |ss|) && j <= k <= |q|
    ensures NonIdle(ss, q[..j]) <= NonIdle(ss, q[..k]) <= NonIdle(ss, q[..j]) + (k - j)
    decreases k
  {
    if j < k {
      NonIdleGrows(ss, q, j, k - 1);
      assert q[..k][..k - 1] == q[..k - 1];
    }
  }

  // A drain tick takes the shortest prefix that holds as many non-idle sessions
  // as the stop rate allows, or the whole queue when there are fewer.
  lemma {:induction false} DrainLenMeaning(ss: seq<Session>, q: seq<int>, rate: nat)
    requires InRange(q, |ss|)
    ensures var k := DrainLen(ss, q, rate);
      && NonIdle(ss, q[..k]) <= rate
      && (k < |q| ==> NonIdle(ss, q[..k]) == rate)
      && (forall j :: 0 <= j < k ==> NonIdle(ss, q[..j]) < rate)
    decreases |q|
  {
    if q != [] && rate > 0 {
      var rest := if ss[q[0]].state.Idle? then rate else rate - 1;
      DrainLenMeaning(ss, q[1..], rest);
      var k := DrainLen(ss, q, rate);
      forall j | 0 < j <= k
        ensures NonIdle(ss, q[..j]) == (if ss[q[0]].state.Idle? then 0 else 1) + NonIdle(ss, q[1..][..j - 1])
      {
        NonIdleFront(ss, q[..j]);
        assert q[..j][1..] == q[1..][..j - 1];
      }
    }
  }

  // Every tick with a positive rate takes that many sessions, or all of them.
  lemma DrainProgress(ss: seq<Session>, q: seq<int>, rate: nat)
    requires InRange(q, |ss|)
    ensures DrainLen(ss, q, rate) == |q| || DrainLen(ss, q, rate) >= rate
  {
    DrainLenMeaning(ss, q, rate);
    NonIdleGrows(ss, q, 0, DrainLen(ss, q, rate));
  }

  // A tick starts as many sessions as it may: it stops at the start rate, at the cap or
  // at the end of the queue, and at none of them before.
  lemma StartCountMeaning(r: Rates, outstanding: nat, queued: nat)
    ensures var k := StartCount(r, outstanding, queued);
      && k <= r.start && k <= queued && (k > 0 ==> outstanding + k <= r.cap)
      && (k == r.start || k == queued || outstanding + k >= r.cap)
  {
  }

  // After a request every session is on the teardown queue exactly once, behind
  // those that were there already.
  lemma {:induction false} MissingMeaning(q: seq<int>, n: nat)
    requires Distinct(q)
    ensures Distinct(q + Missing(q, n))
    ensures forall i :: i in Missing(q, n) <==> 0 <= i < n && i !in q
    ensures forall i, j :: 0 <= i < j < |Missing(q, n)| ==> Missing(q, n)[i] < Missing(q, n)[j]
  {
    if n > 0 {
      MissingMeaning(q, n - 1);
      var m := Missing(q, n - 1);
      assert forall i :: 0 <= i < |m| ==> m[i] in m;
    }
  }
}
