/**
 Runs of the control job interleaved with teardown requests and with whatever
 happens to the sessions between two ticks.
 */
module SchedulerRuns {
  import opened Types
  import opened ClientSpec
  import opened Skeleton
  import opened ClientRuns
  import opened Census
  import opened Rings
  import opened Scheduler

  datatype Happening =
    | Job(links: seq<seq<NetworkInterface>>, delayOver: bool)
    | Request
    | Happens(index: nat, event: Event)

  // A reconnect puts the session back on the idle queue, except in teardown.
  ghost function Next(cfgs: seq<Config>, r: Rates, s: Sched, h: Happening): Sched
    requires Fits(cfgs, s) && Allowed(cfgs, h)
  {
    match h
    case Job(links, over) => CtrlTick(r, s, Resolved(links), over)
    case Request => s.(teardown := true, request := true)
    case Happens(i, e) =>
      var t := s.(f := Tick(cfgs, r.cap, s.f, FleetEvent(i, e)));
      if !e.Restart? then t
      else if s.teardown || !s.f.sessions[i].state.Terminated? then s
      else t.(idle := s.idle + [i])
  }

  ghost predicate Fits(cfgs: seq<Config>, s: Sched) {
    |cfgs| == |s.f.sessions| && InRange(s.idle, |cfgs|) && InRange(s.drain, |cfgs|) && Distinct(s.drain)
  }

  predicate Allowed(cfgs: seq<Config>, h: Happening) {
    h.Happens? ==> h.index < |cfgs| && Proper(h.event) && !h.event.Start?
  }

  ghost predicate AllAllowed(cfgs: seq<Config>, hs: seq<Happening>) {
    forall k :: 0 <= k < |hs| ==> Allowed(cfgs, hs[k])
  }

  lemma NextFits(cfgs: seq<Config>, r: Rates, s: Sched, h: Happening)
    requires Fits(cfgs, s) && Allowed(cfgs, h)
    ensures Fits(cfgs, Next(cfgs, r, s, h))
  {
    hide Step, Counted, Account, ClearSession, DrainLen, CountCleared;
    if h.Job? {
      MissingMeaning(s.drain, |cfgs|);
      var d := s.drain + Missing(s.drain, |cfgs|);
      forall i | 0 <= i < |d| ensures 0 <= d[i] < |cfgs| {
        assert d[i] in s.drain || d[i] in Missing(s.drain, |cfgs|);
      }
    }
  }

  ghost function History(cfgs: seq<Config>, r: Rates, s: Sched, hs: seq<Happening>): (t: Sched)
    requires Fits(cfgs, s) && AllAllowed(cfgs, hs)
    ensures Fits(cfgs, t)
  {
    if hs == [] then s
    else
      var t := History(cfgs, r, s, hs[..|hs| - 1]);
      NextFits(cfgs, r, t, hs[|hs| - 1]);
      Next(cfgs, r, t, hs[|hs| - 1])
  }

  // The commands of the controller are happenings.
  lemma CommandsHappen(cfgs: seq<Config>, r: Rates, s: Sched, i: nat)
    requires Fits(cfgs, s) && i < |cfgs|
    ensures Next(cfgs, r, s, Happens(i, Clear)) == Stop(s, i)
    ensures !s.teardown && s.f.sessions[i].state.Terminated? ==>
      Next(cfgs, r, s, Happens(i, Restart)) == Rejoin(cfgs[i], s, i)
  {
    hide ClearSession, Account, RestartSession, InRange;
  }

  // ---- The cap on outstanding sessions

  lemma {:induction false} ClearingCounts(n: Counters, ss: seq<Session>, q: seq<int>)
    requires InRange(q, |ss|)
    ensures CountCleared(n, ss, q).outstanding <= n.outstanding
  {
    hide ClearSession;
    if q != [] {
      ClearingCounts(n, ss, q[..|q| - 1]);
    }
  }

  lemma NextBelowCap(cfgs: seq<Config>, r: Rates, s: Sched, h: Happening)
    requires Fits(cfgs, s) && Allowed(cfgs, h) && s.f.n.outstanding <= r.cap
    ensures Next(cfgs, r, s, h).f.n.outstanding <= r.cap
  {
    hide Step, ClearSession, CountCleared, Launched, Cleared, DrainLen, Missing;
    if h.Job? {
      ClearingCounts(s.f.n, s.f.sessions, s.drain[..DrainLen(s.f.sessions, s.drain, r.stop)]);
    }
  }

  // Ticks interleaved with anything else never let more sessions be outstanding
  // than configured.
  lemma {:induction false} NeverAboveCap(cfgs: seq<Config>, r: Rates, s: Sched, hs: seq<Happening>)
    requires Fits(cfgs, s) && AllAllowed(cfgs, hs) && s.f.n.outstanding <= r.cap
    ensures History(cfgs, r, s, hs).f.n.outstanding <= r.cap
  {
    hide Next, Fits, Allowed;
    if hs != [] {
      var n := |hs| - 1;
      NeverAboveCap(cfgs, r, s, hs[..n]);
      NextBelowCap(cfgs, r, History(cfgs, r, s, hs[..n]), hs[n]);
    }
  }

  // ---- Draining

  // The sessions one happening clears from the teardown queue.
  ghost function Takes(r: Rates, s: Sched, h: Happening): seq<int>
    requires InRange(s.drain, |s.f.sessions|)
  {
    if h.Job? && s.teardown && !s.request then s.drain[..DrainLen(s.f.sessions, s.drain, r.stop)] else []
  }

  ghost function Log(cfgs: seq<Config>, r: Rates, s: Sched, hs: seq<Happening>): seq<int>
    requires Fits(cfgs, s) && AllAllowed(cfgs, hs)
  {
    if hs == [] then []
    else Log(cfgs, r, s, hs[..|hs| - 1]) + Takes(r, History(cfgs, r, s, hs[..|hs| - 1]), hs[|hs| - 1])
  }

  function Jobs(hs: seq<Happening>): nat {
    if hs == [] then 0 else Jobs(hs[..|hs| - 1]) + (if hs[|hs| - 1].Job? then 1 else 0)
  }

  ghost predicate NoRequest(hs: seq<Happening>) {
    forall k :: 0 <= k < |hs| ==> !hs[k].Request?
  }

  lemma FitsRange(cfgs: seq<Config>, s: Sched)
    requires Fits(cfgs, s)
    ensures |cfgs| == |s.f.sessions| && InRange(s.drain, |s.f.sessions|) && Distinct(s.drain)
  {
  }

  lemma DrainStep(cfgs: seq<Config>, r: Rates, s: Sched, h: Happening)
    requires Fits(cfgs, s) && Allowed(cfgs, h) && !h.Request? && s.teardown && !s.request
    ensures var t := Next(cfgs, r, s, h);
      && t.teardown && !t.request
      && Takes(r, s, h) + t.drain == s.drain
      && (h.Job? ==> t.drain == [] || |t.drain| <= |s.drain| - r.stop)
      && (!h.Job? ==> t.drain == s.drain)
  {
    hide Step, ClearSession, CountCleared, Launched, Cleared, DrainLen, Missing, Counted;
    if h.Job? {
      DrainProgress(s.f.sessions, s.drain, r.stop);
    }
  }

  // Once a request has been served and none follows, sessions leave the teardown
  // queue in order and each exactly once, at least as many per tick as the stop
  // rate says, whatever happens to the sessions meanwhile.
  lemma {:induction false} Drains(cfgs: seq<Config>, r: Rates, s: Sched, hs: seq<Happening>)
    requires Fits(cfgs, s) && AllAllowed(cfgs, hs) && NoRequest(hs) && s.teardown && !s.request
    ensures var t := History(cfgs, r, s, hs);
      && t.teardown && !t.request
      && Log(cfgs, r, s, hs) + t.drain == s.drain
      && (t.drain == [] || |t.drain| <= |s.drain| - r.stop * Jobs(hs))
  {
    hide Next, Fits, Allowed, Takes;
    if hs != [] {
      var n := |hs| - 1;
      var t := History(cfgs, r, s, hs[..n]);
      Drains(cfgs, r, s, hs[..n]);
      FitsRange(cfgs, t);
      DrainStep(cfgs, r, t, hs[n]);
      assert r.stop * (Jobs(hs[..n]) + 1) == r.stop * Jobs(hs[..n]) + r.stop;
      assert Log(cfgs, r, s, hs) + Next(cfgs, r, t, hs[n]).drain
        == Log(cfgs, r, s, hs[..n]) + (Takes(r, t, hs[n]) + Next(cfgs, r, t, hs[n]).drain);
    }
  }

  // The tick that serves a request queues every session, each exactly once.
  lemma RequestQueuesAll(cfgs: seq<Config>, r: Rates, s: Sched, h: Happening)
    requires Fits(cfgs, s) && h.Job? && s.teardown && s.request
    ensures var t := Next(cfgs, r, s, h);
      && t.teardown && !t.request && s.drain <= t.drain && Distinct(t.drain) && t.f == s.f
      && (forall i :: i in t.drain <==> 0 <= i < |cfgs|)
      && |t.drain| == |cfgs|
  {
    hide Step, ClearSession, CountCleared, Launched, Cleared, DrainLen, Counted;
    MissingMeaning(s.drain, |cfgs|);
    var d := Next(cfgs, r, s, h).drain;
    assert d == s.drain + Missing(s.drain, |cfgs|);
    forall i ensures i in d <==> 0 <= i < |cfgs| {
      assert i in d <==> i in s.drain || i in Missing(s.drain, |cfgs|);
    }
    Pigeonhole(d, |cfgs|);
  }

  lemma {:induction false} Pigeonhole(q: seq<int>, n: nat)
    requires Distinct(q) && forall i :: i in q <==> 0 <= i < n
    ensures |q| == n
    decreases n
  {
    if n == 0 {
      assert forall i :: 0 <= i < |q| ==> q[i] in q;
    } else {
      assert n - 1 in q;
      var k :| 0 <= k < |q| && q[k] == n - 1;
      WithoutDistinct(q, k);
      Pigeonhole(Without(q, k), n - 1);
    }
  }

  // With a positive stop rate, after ceil(sessions / rate) further ticks every
  // session has been cleared exactly once.
  lemma AllClearedOnce(cfgs: seq<Config>, r: Rates, s: Sched, hs: seq<Happening>)
    requires Fits(cfgs, s) && AllAllowed(cfgs, hs) && NoRequest(hs) && s.teardown && s.request
    requires hs != [] && hs[0].Job? && r.stop * Jobs(hs[1..]) >= |cfgs|
    ensures AllAllowed(cfgs, hs[1..])
    ensures Fits(cfgs, Next(cfgs, r, s, hs[0]))
    ensures var q := Log(cfgs, r, Next(cfgs, r, s, hs[0]), hs[1..]);
      && Distinct(q) && (forall i :: i in q <==> 0 <= i < |cfgs|)
      && History(cfgs, r, Next(cfgs, r, s, hs[0]), hs[1..]).drain == []
  {
    hide Next, Fits, Takes;
    var t := Next(cfgs, r, s, hs[0]);
    NextFits(cfgs, r, s, hs[0]);
    RequestQueuesAll(cfgs, r, s, hs[0]);
    Drains(cfgs, r, t, hs[1..]);
    var u := History(cfgs, r, t, hs[1..]);
    assert u.drain == [];
    assert Log(cfgs, r, t, hs[1..]) == t.drain;
  }

  // ---- Teardown ends in termination

  ghost predicate Phased(s: Sched) {
    forall i :: 0 <= i < |s.f.sessions| ==> PhaseInv(View(s.f.sessions[i]))
  }

  // A Protocol-Reject that lifts a session out of the terminating phase.
  predicate Revives(s: Sched, h: Happening)
    requires h.Happens? ==> h.index < |s.f.sessions|
  {
    h.Happens? && PrematureReject(s.f.sessions[h.index], h.event)
  }

  lemma ClearTerminates(s: Session)
    requires PhaseInv(View(s))
    ensures InTermination(ClearSession(s).state) && PhaseInv(View(ClearSession(s)))
  {
  }

  // One event of a session that is being torn down.
  lemma StaysInTermination(cfg: Config, s: Session, e: Event)
    requires ValidConfig(cfg) && PhaseInv(View(s)) && Proper(e)
    ensures PhaseInv(View(Step(cfg, s, e)))
    ensures InTermination(s.state) && !PrematureReject(s, e) && !e.Restart? ==> InTermination(Step(cfg, s, e).state)
  {
    hide Step, StimulusOf, Advance, Enabled, PhaseInv, Observe, Watch, PrematureReject, Premature, InTermination;
    StepOf(cfg, s, FRESH, e);
    var i := StimulusOf(cfg, s, e);
    PhaseInvStep(cfg, View(s), i);
    PrematureStimulus(cfg, s, e);
    RestartStimulus(cfg, s, e);
    if InTermination(s.state) {
      TerminationStep(cfg, View(s), i);
    }
  }

  lemma TeardownStep(cfgs: seq<Config>, r: Rates, s: Sched, h: Happening, k: nat)
    requires Fits(cfgs, s) && AllValid(cfgs) && Allowed(cfgs, h) && !h.Request? && s.teardown && !s.request
    requires k < |cfgs| && PhaseInv(View(s.f.sessions[k]))
    ensures var t := Next(cfgs, r, s, h).f.sessions[k];
      && PhaseInv(View(t))
      && (k in Takes(r, s, h) ==> InTermination(t.state))
      && (InTermination(s.f.sessions[k].state) && !Revives(s, h) ==> InTermination(t.state))
  {
    hide Step, ClearSession, CountCleared, Launched, DrainLen, Missing, Counted, PhaseInv, InTermination, PrematureReject;
    match h
    case Job(_, _) => ClearTerminates(s.f.sessions[k]);
    case Happens(i, e) =>
      if i == k {
        StaysInTermination(cfgs[i], s.f.sessions[i], e);
      }
  }

  ghost predicate NeverRevives(cfgs: seq<Config>, r: Rates, s: Sched, hs: seq<Happening>)
    requires Fits(cfgs, s) && AllAllowed(cfgs, hs)
  {
    forall k :: 0 <= k < |hs| ==> !RevivesAt(cfgs, r, s, hs, k)
  }

  ghost predicate RevivesAt(cfgs: seq<Config>, r: Rates, s: Sched, hs: seq<Happening>, k: nat)
    requires Fits(cfgs, s) && AllAllowed(cfgs, hs) && k < |hs|
  {
    Revives(History(cfgs, r, s, hs[..k]), hs[k])
  }

  lemma RevivesPrefix(cfgs: seq<Config>, r: Rates, s: Sched, hs: seq<Happening>, n: nat)
    requires Fits(cfgs, s) && AllAllowed(cfgs, hs) && n <= |hs| && NeverRevives(cfgs, r, s, hs)
    ensures NeverRevives(cfgs, r, s, hs[..n])
  {
    hide Fits, Allowed, History, Revives;
    forall k | 0 <= k < n ensures !RevivesAt(cfgs, r, s, hs[..n], k) {
      assert hs[..n][..k] == hs[..k];
      assert !RevivesAt(cfgs, r, s, hs, k);
    }
  }

  // Every session taken from the queue stays in termination.
  lemma {:induction false} TakenTerminates(cfgs: seq<Config>, r: Rates, s: Sched, hs: seq<Happening>, k: nat)
    requires Fits(cfgs, s) && AllValid(cfgs) && AllAllowed(cfgs, hs) && NoRequest(hs) && s.teardown && !s.request
    requires k < |cfgs| && PhaseInv(View(s.f.sessions[k])) && NeverRevives(cfgs, r, s, hs)
    ensures var t := History(cfgs, r, s, hs);
      && PhaseInv(View(t.f.sessions[k]))
      && (k in Log(cfgs, r, s, hs) ==> InTermination(t.f.sessions[k].state))
  {
    hide Next, Allowed, Takes, PhaseInv, InTermination, Revives;
    if hs != [] {
      var n := |hs| - 1;
      RevivesPrefix(cfgs, r, s, hs, n);
      TakenTerminates(cfgs, r, s, hs[..n], k);
      Drains(cfgs, r, s, hs[..n]);
      assert !RevivesAt(cfgs, r, s, hs, n);
      TeardownStep(cfgs, r, History(cfgs, r, s, hs[..n]), hs[n], k);
    }
  }

  // Teardown as a whole: from the tick that serves the request, and for as long
  // as ticks follow, every session ends in one of the terminating phases and none
  // comes back, unless a Protocol-Reject revives one.
  lemma TeardownTerminatesAll(cfgs: seq<Config>, r: Rates, s: Sched, hs: seq<Happening>)
    requires Fits(cfgs, s) && AllValid(cfgs) && AllAllowed(cfgs, hs) && NoRequest(hs) && Phased(s)
    requires s.teardown && s.request && hs != [] && hs[0].Job? && r.stop * Jobs(hs[1..]) >= |cfgs|
    requires AllAllowed(cfgs, hs[1..]) && Fits(cfgs, Next(cfgs, r, s, hs[0]))
    requires NeverRevives(cfgs, r, Next(cfgs, r, s, hs[0]), hs[1..])
    ensures forall k :: 0 <= k < |cfgs| ==>
      InTermination(History(cfgs, r, Next(cfgs, r, s, hs[0]), hs[1..]).f.sessions[k].state)
  {
    hide Next, Allowed, Takes, PhaseInv, InTermination, Revives, Log, History, NeverRevives;
    var t := Next(cfgs, r, s, hs[0]);
    RequestQueuesAll(cfgs, r, s, hs[0]);
    AllClearedOnce(cfgs, r, s, hs);
    forall k | 0 <= k < |cfgs|
      ensures InTermination(History(cfgs, r, t, hs[1..]).f.sessions[k].state)
    {
      TakenTerminates(cfgs, r, t, hs[1..], k);
    }
  }

  // ---- The idle queue

  // While no teardown was requested, the idle queue holds exactly the idle
  // sessions, each once.
  ghost predicate IdleExact(s: Sched) {
    !s.teardown ==> Distinct(s.idle) && forall i :: 0 <= i < |s.f.sessions| ==> (i in s.idle <==> s.f.sessions[i].state.Idle?)
  }

  // A command that clears a session which still waits for its start.
  predicate Displaces(s: Sched, h: Happening)
    requires h.Happens? ==> h.index < |s.f.sessions|
  {
    h.Happens? && h.event.Clear? && !s.teardown && s.f.sessions[h.index].state.Idle?
  }

  // What can happen to an idle session, and how a session becomes idle.
  lemma IdleMoves(cfg: Config, s: Session, e: Event)
    requires ValidConfig(cfg) && PhaseInv(View(s)) && Proper(e) && !e.Start?
    ensures PhaseInv(View(Step(cfg, s, e)))
    ensures s.state.Idle? ==> Step(cfg, s, e).state == if e.Clear? then Terminated else Idle
    ensures !s.state.Idle? ==> (Step(cfg, s, e).state.Idle? <==> s.state.Terminated? && e.Restart?)
  {
    hide Step, StimulusOf, Advance, Enabled, PhaseInv, Observe, Watch;
    StepOf(cfg, s, FRESH, e);
    var i := StimulusOf(cfg, s, e);
    PhaseInvStep(cfg, View(s), i);
    IdleStimulus(cfg, s, e);
    IdleControl(cfg, View(s), i);
  }

  lemma IdleControl(cfg: Config, c: Control, i: Stimulus)
    requires PhaseInv(c) && Enabled(cfg, c, i) && !i.Started?
    ensures c.state.Idle? ==> Advance(cfg, c, i).state == if i.Terminated_? then Terminated else Idle
    ensures !c.state.Idle? ==> (Advance(cfg, c, i).state.Idle? <==> i.Restarted?)
  {
  }

  lemma IdleStimulus(cfg: Config, s: Session, e: Event)
    requires !e.Start?
    ensures !StimulusOf(cfg, s, e).Started?
    ensures StimulusOf(cfg, s, e).Restarted? <==> s.state.Terminated? && e.Restart?
    ensures s.state.Idle? ==> (StimulusOf(cfg, s, e).Terminated_? <==> e.Clear?)
  {
    hide NaksAuth, NegotiatedAuth, OnConfAck, OnConfRequest, HostUniqMatches, AcceptsPads;
  }

  ghost predicate IdleInv(s: Sched) {
    IdleExact(s) && Phased(s)
  }

  lemma EventKeepsIdle(cfgs: seq<Config>, r: Rates, s: Sched, h: Happening)
    requires Fits(cfgs, s) && AllValid(cfgs) && Allowed(cfgs, h) && h.Happens? && IdleInv(s)
    ensures var t := Next(cfgs, r, s, h);
      Phased(t) && (IdleExact(t) <==> !Displaces(s, h))
  {
    hide Step, ClearSession, PhaseInv, Counted;
    var i := h.index;
    IdleMoves(cfgs[i], s.f.sessions[i], h.event);
    var t := Next(cfgs, r, s, h);
    if Displaces(s, h) {
      assert i in t.idle && !t.f.sessions[i].state.Idle?;
    } else if !s.teardown {
      assert Distinct(t.idle);
      forall j | 0 <= j < |cfgs| ensures j in t.idle <==> t.f.sessions[j].state.Idle? {
        assert j in s.idle + [i] <==> j in s.idle || j == i;
      }
    }
  }

  lemma StartKeepsIdle(cfgs: seq<Config>, r: Rates, s: Sched)
    requires Fits(cfgs, s) && IdleInv(s) && !s.teardown
    ensures IdleInv(StartSome(r, s))
  {
    hide PhaseInv, Launch, StartCount;
    var k := StartCount(r, s.f.n.outstanding, |s.idle|);
    StartCountBound(r, s.f.n.outstanding, |s.idle|);
    var t := StartSome(r, s);
    forall j | 0 <= j < |cfgs|
      ensures PhaseInv(View(t.f.sessions[j])) && (j in t.idle <==> t.f.sessions[j].state.Idle?)
    {
      Partition(s.idle, k, j);
      LaunchIdle(s.f.sessions[j]);
    }
  }

  lemma StartCountBound(r: Rates, outstanding: nat, queued: nat)
    ensures StartCount(r, outstanding, queued) <= queued
  {
  }

  // A session is in exactly one of the two parts of a queue.
  lemma Partition(q: seq<int>, k: nat, j: int)
    requires Distinct(q) && k <= |q|
    ensures j in q <==> j in q[..k] || j in q[k..]
    ensures !(j in q[..k] && j in q[k..])
  {
    assert q == q[..k] + q[k..];
  }

  lemma LaunchIdle(s: Session)
    ensures !Launch(s).state.Idle?
    ensures PhaseInv(View(s)) && s.state.Idle? ==> PhaseInv(View(Launch(s)))
  {
  }

  lemma JobKeepsIdle(cfgs: seq<Config>, r: Rates, s: Sched, h: Happening)
    requires Fits(cfgs, s) && IdleInv(s) && h.Job?
    ensures IdleInv(Next(cfgs, r, s, h))
  {
    hide ClearSession, PhaseInv, CountCleared, DrainLen, StartSome;
    if s.teardown {
      var t := Next(cfgs, r, s, h);
      forall j | 0 <= j < |cfgs| ensures PhaseInv(View(t.f.sessions[j])) {
        ClearTerminates(s.f.sessions[j]);
      }
    } else {
      StartKeepsIdle(cfgs, r, s.(init := false));
    }
  }

  ghost predicate DisplacesAt(cfgs: seq<Config>, r: Rates, s: Sched, hs: seq<Happening>, k: nat)
    requires Fits(cfgs, s) && AllAllowed(cfgs, hs) && k < |hs|
  {
    Displaces(History(cfgs, r, s, hs[..k]), hs[k])
  }

  ghost predicate NeverDisplaces(cfgs: seq<Config>, r: Rates, s: Sched, hs: seq<Happening>)
    requires Fits(cfgs, s) && AllAllowed(cfgs, hs)
  {
    forall k :: 0 <= k < |hs| ==> !DisplacesAt(cfgs, r, s, hs, k)
  }

  lemma NextKeepsIdle(cfgs: seq<Config>, r: Rates, s: Sched, h: Happening)
    requires Fits(cfgs, s) && AllValid(cfgs) && Allowed(cfgs, h) && IdleInv(s)
    ensures var t := Next(cfgs, r, s, h);
      Phased(t) && (IdleExact(t) <==> !Displaces(s, h))
  {
    match h
    case Job(_, _) =>
      hide Next;
      JobKeepsIdle(cfgs, r, s, h);
    case Happens(_, _) =>
      hide Next, Displaces;
      EventKeepsIdle(cfgs, r, s, h);
    case Request =>
      hide Fits;
  }

  lemma DisplacesPrefix(cfgs: seq<Config>, r: Rates, s: Sched, hs: seq<Happening>, n: nat, k: nat)
    requires Fits(cfgs, s) && AllAllowed(cfgs, hs) && k < n <= |hs|
    ensures DisplacesAt(cfgs, r, s, hs[..n], k) == DisplacesAt(cfgs, r, s, hs, k)
  {
    hide Fits, Allowed, History, Displaces;
    assert hs[..n][..k] == hs[..k];
  }

  lemma HistoryStep(cfgs: seq<Config>, r: Rates, s: Sched, hs: seq<Happening>, k: nat)
    requires Fits(cfgs, s) && AllAllowed(cfgs, hs) && k < |hs|
    ensures History(cfgs, r, s, hs[..k + 1]) == Next(cfgs, r, History(cfgs, r, s, hs[..k]), hs[k])
  {
    hide Next, Fits, Allowed;
    assert hs[..k + 1][..k] == hs[..k];
  }

  lemma {:induction false} IdleRun(cfgs: seq<Config>, r: Rates, s: Sched, hs: seq<Happening>)
    requires Fits(cfgs, s) && AllValid(cfgs) && AllAllowed(cfgs, hs) && IdleInv(s) && NeverDisplaces(cfgs, r, s, hs)
    ensures IdleInv(History(cfgs, r, s, hs))
  {
    hide Next, Fits, Allowed, IdleExact, Phased, Displaces;
    if hs != [] {
      var n := |hs| - 1;
      forall k | 0 <= k < n ensures !DisplacesAt(cfgs, r, s, hs[..n], k) {
        DisplacesPrefix(cfgs, r, s, hs, n, k);
      }
      IdleRun(cfgs, r, s, hs[..n]);
      assert !DisplacesAt(cfgs, r, s, hs, n);
      NextKeepsIdle(cfgs, r, History(cfgs, r, s, hs[..n]), hs[n]);
    }
  }

  lemma FirstDisplacement(cfgs: seq<Config>, r: Rates, s: Sched, hs: seq<Happening>) returns (k: nat)
    requires Fits(cfgs, s) && AllAllowed(cfgs, hs) && !NeverDisplaces(cfgs, r, s, hs)
    ensures k < |hs| && DisplacesAt(cfgs, r, s, hs, k) && NeverDisplaces(cfgs, r, s, hs[..k])
    decreases |hs|
  {
    hide DisplacesAt, Fits, Allowed;
    k :| 0 <= k < |hs| && DisplacesAt(cfgs, r, s, hs, k);
    if !NeverDisplaces(cfgs, r, s, hs[..k]) {
      var j := FirstDisplacement(cfgs, r, s, hs[..k]);
      DisplacesPrefix(cfgs, r, s, hs, k, j);
      assert hs[..k][..j] == hs[..j];
      k := j;
    }
  }

  // Throughout a run the idle queue holds exactly the idle sessions, each once,
  // if and only if no command clears a session that still waits for its start.
  lemma IdleExactIff(cfgs: seq<Config>, r: Rates, s: Sched, hs: seq<Happening>)
    requires Fits(cfgs, s) && AllValid(cfgs) && AllAllowed(cfgs, hs) && IdleInv(s)
    ensures (forall k :: 0 <= k <= |hs| ==> IdleExact(History(cfgs, r, s, hs[..k]))) <==> NeverDisplaces(cfgs, r, s, hs)
  {
    hide Next, Fits, Allowed, IdleExact, Phased, Displaces, History;
    if NeverDisplaces(cfgs, r, s, hs) {
      forall k | 0 <= k <= |hs| ensures IdleExact(History(cfgs, r, s, hs[..k])) {
        forall j | 0 <= j < k ensures !DisplacesAt(cfgs, r, s, hs[..k], j) {
          DisplacesPrefix(cfgs, r, s, hs, k, j);
        }
        IdleRun(cfgs, r, s, hs[..k]);
      }
    } else {
      var k := FirstDisplacement(cfgs, r, s, hs);
      IdleRun(cfgs, r, s, hs[..k]);
      NextKeepsIdle(cfgs, r, History(cfgs, r, s, hs[..k]), hs[k]);
      HistoryStep(cfgs, r, s, hs, k);
    }
  }

  // A session that is cleared while it waits is started nevertheless, and stays
  // counted as terminated.
  lemma ClearedWhileWaiting(cfg: Config, r: Rates, s: Session)
    requires s.state.Idle? && r.start > 0 && r.cap > 0
    ensures var a := Sched(false, false, false, [0], [], Fleet([s], Counters(0, 0, 0)));
      Fits([cfg], a)
      && var b := Next([cfg], r, a, Happens(0, Clear));
      && Displaces(a, Happens(0, Clear)) && Fits([cfg], b)
      && var c := Next([cfg], r, b, Job([], true));
      && c.f.sessions[0].state.PppoeInit? && c.f.n == Counters(1, 0, 1)
  {
    var a := Sched(false, false, false, [0], [], Fleet([s], Counters(0, 0, 0)));
    NextFits([cfg], r, a, Happens(0, Clear));
    var b := Next([cfg], r, a, Happens(0, Clear));
    assert b.f.sessions[0].state.Terminated? && b.f.n == Counters(0, 0, 1);
    assert b.idle[..1] == [0];
  }

  // The beginning of every run.
  lemma BeginsExact(cfgs: seq<Config>, ss: seq<Session>, autostart: bool)
    requires |cfgs| == |ss|
    requires forall i :: 0 <= i < |ss| ==> Initial(ss[i].(state := if autostart then Idle else Terminated))
    ensures var s := Begin(ss, autostart); Fits(cfgs, s) && IdleInv(s) && FleetStarts(s.f) && GateInv(s)
  {
    var s := Begin(ss, autostart);
    var state := if autostart then Idle else Terminated;
    forall i | 0 <= i < |ss| ensures s.f.sessions[i].state == state && Waiting(s.f.sessions[i]) && Initial(s.f.sessions[i]) {
      InitialWaits(s.f.sessions[i]);
    }
    BeginsQueued(cfgs, ss, autostart);
    hide Member, Waiting, Initial, Missing, PhaseInv;
    TallySame(s.f.sessions, state, Setup);
    TallySame(s.f.sessions, state, Up);
    TallySame(s.f.sessions, state, Gone);
    StartMembers(autostart);
    assert forall i :: 0 <= i < |ss| ==> PhaseInv(View(s.f.sessions[i]));
  }

  lemma InitialWaits(s: Session)
    ensures Initial(s) ==> Waiting(s)
    ensures Waiting(s) ==> PhaseInv(View(s))
  {
  }

  lemma StartMembers(autostart: bool)
    ensures var state := if autostart then Idle else Terminated;
      Member(state, Setup) == 0 && Member(state, Up) == 0 && Member(state, Gone) == if autostart then 0 else 1
  {
  }

  lemma BeginsQueued(cfgs: seq<Config>, ss: seq<Session>, autostart: bool)
    requires |cfgs| == |ss|
    ensures var s := Begin(ss, autostart); Fits(cfgs, s) && IdleExact(s)
  {
    var s := Begin(ss, autostart);
    MissingMeaning([], |ss|);
    assert [] + Missing([], |ss|) == Missing([], |ss|);
    forall i | 0 <= i < |s.idle| ensures 0 <= s.idle[i] < |ss| {
      assert s.idle[i] in s.idle;
    }
  }

  lemma {:induction false} TallySame(ss: seq<Session>, state: SessionState, k: Kind)
    requires forall i :: 0 <= i < |ss| ==> ss[i].state == state
    ensures Tally(ss, k) == |ss| * Member(state, k)
  {
    hide Member;
    if ss != [] {
      TallySame(ss[1..], state, k);
      assert |ss| * Member(state, k) == (|ss| - 1) * Member(state, k) + Member(state, k);
    }
  }

  // ---- Nothing starts before the gateways are resolved

  predicate Waiting(s: Session) {
    (s.state.Idle? || s.state.Terminated?) && PhaseInv(View(s))
  }

  ghost predicate GateInv(s: Sched) {
    && (s.init || s.teardown) && s.f.n.outstanding == 0
    && forall i :: 0 <= i < |s.f.sessions| ==> Waiting(s.f.sessions[i])
  }

  predicate Unresolved(h: Happening) {
    h.Job? ==> !Resolved(h.links)
  }

  lemma WaitingMoves(cfg: Config, s: Session, e: Event)
    requires ValidConfig(cfg) && Waiting(s) && Proper(e) && !e.Start?
    ensures Waiting(Step(cfg, s, e)) && Waiting(ClearSession(s))
  {
    hide Step, StimulusOf, Advance, Enabled, PhaseInv, Observe, Watch;
    IdleMoves(cfg, s, e);
    SessionMoves(cfg, s, e);
    ClearTerminates(s);
  }

  lemma GateStep(cfgs: seq<Config>, r: Rates, s: Sched, h: Happening)
    requires Fits(cfgs, s) && AllValid(cfgs) && Allowed(cfgs, h) && GateInv(s) && Unresolved(h)
    ensures GateInv(Next(cfgs, r, s, h))
  {
    hide Step, ClearSession, CountCleared, DrainLen, Waiting, Missing, Resolved, Account;
    var t := Next(cfgs, r, s, h);
    forall i | 0 <= i < |cfgs| ensures Waiting(t.f.sessions[i]) {
      WaitingMoves(cfgs[i], s.f.sessions[i], if h.Happens? then h.event else Clear);
    }
    match h
    case Job(_, _) => ClearingCounts(s.f.n, s.f.sessions, s.drain[..DrainLen(s.f.sessions, s.drain, r.stop)]);
    case Happens(_, _) => CountsDown();
    case Request =>
  }

  lemma CountsDown()
    ensures forall n: Counters, a: SessionState, b: SessionState :: Account(n, a, b).outstanding <= n.outstanding
  {
  }

  // As long as no tick finds every awaited gateway resolved, no session is
  // started, torn down or not.
  lemma {:induction false} NothingStartsUnresolved(cfgs: seq<Config>, r: Rates, s: Sched, hs: seq<Happening>)
    requires Fits(cfgs, s) && AllValid(cfgs) && AllAllowed(cfgs, hs) && GateInv(s)
    requires forall k :: 0 <= k < |hs| ==> Unresolved(hs[k])
    ensures var t := History(cfgs, r, s, hs);
      && GateInv(t) && t.f.n.outstanding == 0
      && forall i :: 0 <= i < |cfgs| ==> t.f.sessions[i].state.Idle? || t.f.sessions[i].state.Terminated?
  {
    hide Next, Fits, Allowed, Unresolved, PhaseInv;
    if hs != [] {
      var n := |hs| - 1;
      NothingStartsUnresolved(cfgs, r, s, hs[..n]);
      GateStep(cfgs, r, History(cfgs, r, s, hs[..n]), hs[n]);
    }
    FitsRange(cfgs, History(cfgs, r, s, hs));
  }

  // The gateway addresses an interface waits for are all resolved, or it does not wait.
  predicate Passes(n: NetworkInterface) {
    !n.resolveWait || ((n.gateway6 > 0 ==> n.ndResolved) && (n.gateway > 0 ==> n.arpResolved))
  }

  // A tick outside teardown that finds the interfaces of every link settled.
  ghost predicate OpensGate(s: Sched, h: Happening) {
    h.Job? && !s.teardown && forall i :: 0 <= i < |h.links| ==> LinkPasses(h.links[i])
  }

  ghost predicate LinkPasses(link: seq<NetworkInterface>) {
    forall j :: 0 <= j < |link| ==> Passes(link[j])
  }

  lemma ResolvedIff(links: seq<seq<NetworkInterface>>)
    ensures Resolved(links) <==> forall i :: 0 <= i < |links| ==> LinkPasses(links[i])
  {
  }

  ghost predicate OpensGateAt(cfgs: seq<Config>, r: Rates, s: Sched, hs: seq<Happening>, k: nat)
    requires Fits(cfgs, s) && AllAllowed(cfgs, hs) && k < |hs|
  {
    OpensGate(History(cfgs, r, s, hs[..k]), hs[k])
  }

  lemma GateNext(cfgs: seq<Config>, r: Rates, s: Sched, h: Happening)
    requires Fits(cfgs, s) && Allowed(cfgs, h)
    ensures Next(cfgs, r, s, h).init <==> s.init && !OpensGate(s, h)
  {
    hide Tick, Missing, Cleared, CountCleared, DrainLen, Launched, Resolved, LinkPasses;
    if h.Job? {
      ResolvedIff(h.links);
    }
  }

  // The gate stays closed exactly until a tick finds the interfaces of every link settled,
  // and then never closes again.
  lemma {:induction false} GateOpensIff(cfgs: seq<Config>, r: Rates, s: Sched, hs: seq<Happening>)
    requires Fits(cfgs, s) && AllAllowed(cfgs, hs)
    ensures History(cfgs, r, s, hs).init <==> s.init && forall k :: 0 <= k < |hs| ==> !OpensGateAt(cfgs, r, s, hs, k)
  {
    hide Next, Fits, Allowed, OpensGate;
    if hs != [] {
      var n := |hs| - 1;
      GateOpensIff(cfgs, r, s, hs[..n]);
      GateNext(cfgs, r, History(cfgs, r, s, hs[..n]), hs[n]);
      forall k | 0 <= k < n ensures OpensGateAt(cfgs, r, s, hs[..n], k) == OpensGateAt(cfgs, r, s, hs, k) {
        assert hs[..n][..k] == hs[..k];
      }
      assert OpensGateAt(cfgs, r, s, hs, n) == OpensGate(History(cfgs, r, s, hs[..n]), hs[n]);
      if s.init && forall k :: 0 <= k < n ==> !OpensGateAt(cfgs, r, s, hs, k) {
        forall k | 0 <= k < n ensures !OpensGateAt(cfgs, r, s, hs[..n], k) {
          assert !OpensGateAt(cfgs, r, s, hs, k);
        }
      }
    }
  }

  // ---- Nothing starts after a request

  lemma TeardownAnyStep(cfgs: seq<Config>, r: Rates, s: Sched, h: Happening, i: nat)
    requires Fits(cfgs, s) && AllValid(cfgs) && Allowed(cfgs, h) && (s.teardown || h.Request?) && i < |cfgs|
    ensures var t := Next(cfgs, r, s, h);
      && t.teardown && t.idle == s.idle && t.f.n.outstanding <= s.f.n.outstanding
      && (Waiting(s.f.sessions[i]) ==> Waiting(t.f.sessions[i]))
  {
    hide Step, ClearSession, CountCleared, DrainLen, Waiting, Missing, Resolved, Account, Launched;
    match h
    case Job(_, _) =>
      ClearingCounts(s.f.n, s.f.sessions, s.drain[..DrainLen(s.f.sessions, s.drain, r.stop)]);
      if Waiting(s.f.sessions[i]) {
        WaitingMoves(cfgs[i], s.f.sessions[i], Clear);
      }
    case Happens(j, e) =>
      CountsDown();
      if j == i && Waiting(s.f.sessions[i]) {
        WaitingMoves(cfgs[i], s.f.sessions[i], e);
      }
    case Request =>
  }

  // A request ends all starting for good: from then on no session leaves the idle
  // queue, no waiting session is started, and nothing becomes outstanding.
  lemma {:induction false} NothingStartsAfterRequest(cfgs: seq<Config>, r: Rates, s: Sched, hs: seq<Happening>, i: nat)
    requires Fits(cfgs, s) && AllValid(cfgs) && AllAllowed(cfgs, hs) && i < |cfgs|
    requires hs != [] && hs[0].Request?
    ensures var t := History(cfgs, r, s, hs);
      && t.teardown && t.idle == s.idle && t.f.n.outstanding <= s.f.n.outstanding
      && (Waiting(s.f.sessions[i]) ==> Waiting(t.f.sessions[i]))
  {
    hide Next, Allowed, Waiting;
    var n := |hs| - 1;
    if n == 0 {
      assert hs[..0] == [];
      TeardownAnyStep(cfgs, r, s, hs[0], i);
    } else {
      NothingStartsAfterRequest(cfgs, r, s, hs[..n], i);
      TeardownAnyStep(cfgs, r, History(cfgs, r, s, hs[..n]), hs[n], i);
    }
  }
}
