/**
 The counters under the control job. A run of the scheduler is compared with the
 fleet run of the session events it amounts to, and the counters with a census of
 the sessions, over every run.
 */
module SchedulerCounts {
  import opened Types
  import opened ClientSpec
  import opened Skeleton
  import opened ClientRuns
  import opened Census
  import opened Rings
  import opened Scheduler
  import opened SchedulerRuns

  // ---- Scheduler runs are fleet runs

  function Each(q: seq<int>, e: Event): seq<FleetEvent>
    requires forall i :: 0 <= i < |q| ==> q[i] >= 0
  {
    seq(|q|, i requires 0 <= i < |q| => FleetEvent(q[i], e))
  }

  lemma EachSnoc(q: seq<int>, e: Event)
    requires q != [] && forall i :: 0 <= i < |q| ==> q[i] >= 0
    ensures Each(q, e)[..|q| - 1] == Each(q[..|q| - 1], e) && Each(q, e)[|q| - 1] == FleetEvent(q[|q| - 1], e)
  {
  }

  lemma {:induction false} StartsRun(cfgs: seq<Config>, cap: nat, f: Fleet, q: seq<int>)
    requires |cfgs| == |f.sessions| && InRange(q, |cfgs|) && Distinct(q) && f.n.outstanding + |q| <= cap
    requires forall i :: 0 <= i < |q| ==> f.sessions[q[i]].state.Idle?
    ensures Wellformed(cfgs, Each(q, Start))
    ensures After(cfgs, cap, f, Each(q, Start))
         == Fleet(Launched(f.sessions, q), f.n.(outstanding := f.n.outstanding + |q|))
  {
    hide Tick, Launch;
    if q == [] {
      assert Launched(f.sessions, q) == f.sessions;
    } else {
      var n := |q| - 1;
      StartsRun(cfgs, cap, f, q[..n]);
      EachSnoc(q, Start);
      LaunchOne(cfgs, cap, f, q);
    }
  }

  lemma LaunchOne(cfgs: seq<Config>, cap: nat, f: Fleet, q: seq<int>)
    requires |cfgs| == |f.sessions| && InRange(q, |cfgs|) && Distinct(q) && f.n.outstanding + |q| <= cap && q != []
    requires forall i :: 0 <= i < |q| ==> f.sessions[q[i]].state.Idle?
    ensures var n := |q| - 1;
      Tick(cfgs, cap, Fleet(Launched(f.sessions, q[..n]), f.n.(outstanding := f.n.outstanding + n)), FleetEvent(q[n], Start))
      == Fleet(Launched(f.sessions, q), f.n.(outstanding := f.n.outstanding + n + 1))
  {
    var n := |q| - 1;
    assert q[..n + 1] == q && q[n] !in q[..n];
    LaunchedOne(f.sessions, q, n);
    assert Step(cfgs[q[n]], f.sessions[q[n]], Start) == Launch(f.sessions[q[n]]);
  }

  lemma {:induction false} ClearsRun(cfgs: seq<Config>, cap: nat, f: Fleet, q: seq<int>)
    requires |cfgs| == |f.sessions| && InRange(q, |cfgs|) && Distinct(q)
    ensures Wellformed(cfgs, Each(q, Clear))
    ensures After(cfgs, cap, f, Each(q, Clear)) == Fleet(Cleared(f.sessions, q), CountCleared(f.n, f.sessions, q))
  {
    hide Tick, Cleared, CountCleared, Account;
    if q == [] {
      ClearsNone(f);
    } else {
      var n := |q| - 1;
      ClearsRun(cfgs, cap, f, q[..n]);
      EachSnoc(q, Clear);
      ClearOne(cfgs, cap, f, q);
    }
  }

  lemma ClearStep(cfg: Config, s: Session, n: Counters)
    ensures Step(cfg, s, Clear) == ClearSession(s)
    ensures Counted(n, s.state, ClearSession(s).state, Clear) == Account(n, s.state, ClearSession(s).state)
  {
    hide ClearSession, Account;
  }

  lemma ClearOne(cfgs: seq<Config>, cap: nat, f: Fleet, q: seq<int>)
    requires |cfgs| == |f.sessions| && InRange(q, |cfgs|) && Distinct(q) && q != []
    ensures var n := |q| - 1;
      Tick(cfgs, cap, Fleet(Cleared(f.sessions, q[..n]), CountCleared(f.n, f.sessions, q[..n])), FleetEvent(q[n], Clear))
      == Fleet(Cleared(f.sessions, q), CountCleared(f.n, f.sessions, q))
  {
    hide ClearSession, Account, Step, Counted, Cleared;
    var n := |q| - 1;
    assert q[..n + 1] == q && q[n] !in q[..n];
    ClearedOne(f.sessions, q, n);
    ClearStep(cfgs[q[n]], f.sessions[q[n]], CountCleared(f.n, f.sessions, q[..n]));
  }

  // The sessions that a happening starts, in order.
  ghost function Launches(r: Rates, s: Sched, h: Happening): seq<int> {
    if h.Job? && !s.teardown && h.delayOver && (s.init ==> Resolved(h.links))
    then s.idle[..StartCount(r, s.f.n.outstanding, |s.idle|)] else []
  }

  // All of them are idle, and none is started twice.
  ghost predicate Clean(cfgs: seq<Config>, r: Rates, s: Sched, h: Happening)
    requires Fits(cfgs, s)
  {
    AllIdle(s.f, Launches(r, s, h))
  }

  // The session events that a happening amounts to.
  ghost function Amounts(cfgs: seq<Config>, r: Rates, s: Sched, h: Happening): (es: seq<FleetEvent>)
    requires Fits(cfgs, s) && Allowed(cfgs, h)
    ensures Wellformed(cfgs, es)
  {
    match h
    case Request => []
    case Happens(i, e) =>
      if e.Restart? && (s.teardown || !s.f.sessions[i].state.Terminated?) then [] else [FleetEvent(i, e)]
    case Job(_, _) => if s.teardown then Each(Takes(r, s, h), Clear) else Each(Launches(r, s, h), Start)
  }

  ghost predicate AllIdle(f: Fleet, q: seq<int>) {
    InRange(q, |f.sessions|) && Distinct(q) && forall i :: 0 <= i < |q| ==> f.sessions[q[i]].state.Idle?
  }

  // A session is idle after others were started only if it was idle and not among them.
  lemma AllIdleSnoc(f: Fleet, q: seq<int>)
    requires q != [] && InRange(q, |f.sessions|) && AllIdle(f, q[..|q| - 1])
    requires Launched(f.sessions, q[..|q| - 1])[q[|q| - 1]].state.Idle?
    ensures AllIdle(f, q)
  {
    var n := |q| - 1;
    assert q[n] !in q[..n];
    forall i, j | 0 <= i < j < |q| ensures q[i] != q[j] {
      assert j == n ==> q[..n][i] == q[i];
    }
  }

  // Starting one session after the other counts all of them exactly when they are
  // different and idle.
  lemma {:induction false} StartsCount(cfgs: seq<Config>, cap: nat, f: Fleet, q: seq<int>)
    requires |cfgs| == |f.sessions| && InRange(q, |cfgs|)
    ensures Wellformed(cfgs, Each(q, Start))
    ensures var g := After(cfgs, cap, f, Each(q, Start));
      && g.n.outstanding <= f.n.outstanding + |q|
      && (g.n.outstanding == f.n.outstanding + |q| ==> AllIdle(f, q) && (q != [] ==> g.n.outstanding <= cap))
  {
    hide Tick, AllIdle, Launched;
    if q == [] {
      NoneIdle(f);
    } else {
      var n := |q| - 1;
      StartsCount(cfgs, cap, f, q[..n]);
      EachSnoc(q, Start);
      var g := After(cfgs, cap, f, Each(q[..n], Start));
      StartCounts(cfgs, cap, g, q[n]);
      if After(cfgs, cap, f, Each(q, Start)).n.outstanding == f.n.outstanding + |q| {
        AllIdleMeans(f, q[..n]);
        StartsRun(cfgs, cap, f, q[..n]);
        AllIdleSnoc(f, q);
      }
    }
  }

  lemma NoneIdle(f: Fleet)
    ensures AllIdle(f, [])
  {
  }

  lemma AllIdleMeans(f: Fleet, q: seq<int>)
    requires AllIdle(f, q)
    ensures InRange(q, |f.sessions|) && Distinct(q) && forall i :: 0 <= i < |q| ==> f.sessions[q[i]].state.Idle?
  {
  }

  lemma StartCounts(cfgs: seq<Config>, cap: nat, f: Fleet, i: nat)
    requires |cfgs| == |f.sessions| && i < |cfgs|
    ensures Tick(cfgs, cap, f, FleetEvent(i, Start)).n.outstanding
         == f.n.outstanding + if f.n.outstanding < cap && f.sessions[i].state.Idle? then 1 else 0
  {
  }

  // A happening does to the fleet what the events do that it amounts to, exactly
  // when it starts only idle sessions, each once.
  lemma NextAmountsIff(cfgs: seq<Config>, r: Rates, s: Sched, h: Happening)
    requires Fits(cfgs, s) && Allowed(cfgs, h) && s.f.n.outstanding <= r.cap
    ensures Next(cfgs, r, s, h).f == After(cfgs, r.cap, s.f, Amounts(cfgs, r, s, h)) <==> Clean(cfgs, r, s, h)
  {
    hide Step, ClearSession, CountCleared, DrainLen, Launched, Cleared, Counted, Missing, Resolved;
    match h
    case Request =>
    case Happens(i, e) =>
      var x := [FleetEvent(i, e)];
      assert x[..0] == [];
      assert After(cfgs, r.cap, s.f, []) == s.f;
    case Job(links, over) =>
      if s.teardown {
        var q := Takes(r, s, h);
        ClearsRun(cfgs, r.cap, s.f, q);
        ClearsNone(s.f);
      } else {
        var q := Launches(r, s, h);
        LaunchesBound(r, s, h);
        StartsCount(cfgs, r.cap, s.f, q);
        if Clean(cfgs, r, s, h) {
          StartsRun(cfgs, r.cap, s.f, q);
        }
        LaunchedNone(s.f.sessions);
      }
  }

  lemma LaunchesBound(r: Rates, s: Sched, h: Happening)
    requires s.f.n.outstanding <= r.cap
    ensures s.f.n.outstanding + |Launches(r, s, h)| <= r.cap && Launches(r, s, h) <= s.idle
  {
  }

  lemma LaunchedNone(ss: seq<Session>)
    ensures Launched(ss, []) == ss
  {
  }

  lemma ClearsNone(f: Fleet)
    ensures Cleared(f.sessions, []) == f.sessions && CountCleared(f.n, f.sessions, []) == f.n
  {
    hide ClearSession;
  }

  ghost function Trace(cfgs: seq<Config>, r: Rates, s: Sched, hs: seq<Happening>): (es: seq<FleetEvent>)
    requires Fits(cfgs, s) && AllAllowed(cfgs, hs)
    ensures Wellformed(cfgs, es)
  {
    if hs == [] then []
    else Trace(cfgs, r, s, hs[..|hs| - 1]) + Amounts(cfgs, r, History(cfgs, r, s, hs[..|hs| - 1]), hs[|hs| - 1])
  }

  lemma {:induction false} AfterConcat(cfgs: seq<Config>, cap: nat, f: Fleet, a: seq<FleetEvent>, b: seq<FleetEvent>)
    requires |cfgs| == |f.sessions| && Wellformed(cfgs, a) && Wellformed(cfgs, b)
    ensures After(cfgs, cap, f, a + b) == After(cfgs, cap, After(cfgs, cap, f, a), b)
    decreases |b|
  {
    hide Tick;
    if b == [] {
      assert a + b == a;
    } else {
      var n := |b| - 1;
      AfterConcat(cfgs, cap, f, a, b[..n]);
      assert (a + b)[..|a + b| - 1] == a + b[..n] && (a + b)[|a + b| - 1] == b[n];
    }
  }

  ghost predicate CleanAt(cfgs: seq<Config>, r: Rates, s: Sched, hs: seq<Happening>, k: nat)
    requires Fits(cfgs, s) && AllAllowed(cfgs, hs) && k < |hs|
  {
    Clean(cfgs, r, History(cfgs, r, s, hs[..k]), hs[k])
  }

  ghost predicate AllClean(cfgs: seq<Config>, r: Rates, s: Sched, hs: seq<Happening>)
    requires Fits(cfgs, s) && AllAllowed(cfgs, hs)
  {
    forall k :: 0 <= k < |hs| ==> CleanAt(cfgs, r, s, hs, k)
  }

  ghost predicate IsFleetRun(cfgs: seq<Config>, r: Rates, s: Sched, hs: seq<Happening>)
    requires Fits(cfgs, s) && AllAllowed(cfgs, hs)
  {
    History(cfgs, r, s, hs).f == After(cfgs, r.cap, s.f, Trace(cfgs, r, s, hs))
  }

  lemma FleetRunStep(cfgs: seq<Config>, r: Rates, s: Sched, hs: seq<Happening>, k: nat)
    requires Fits(cfgs, s) && AllAllowed(cfgs, hs) && k < |hs| && s.f.n.outstanding <= r.cap
    requires IsFleetRun(cfgs, r, s, hs[..k])
    ensures IsFleetRun(cfgs, r, s, hs[..k + 1]) <==> CleanAt(cfgs, r, s, hs, k)
  {
    hide Next, Allowed, Amounts, Tick, Clean;
    var t := History(cfgs, r, s, hs[..k]);
    assert hs[..k + 1][..k] == hs[..k];
    NeverAboveCap(cfgs, r, s, hs[..k]);
    NextAmountsIff(cfgs, r, t, hs[k]);
    AfterConcat(cfgs, r.cap, s.f, Trace(cfgs, r, s, hs[..k]), Amounts(cfgs, r, t, hs[k]));
  }

  lemma {:induction false} CleanRun(cfgs: seq<Config>, r: Rates, s: Sched, hs: seq<Happening>, k: nat)
    requires Fits(cfgs, s) && AllAllowed(cfgs, hs) && k <= |hs| && s.f.n.outstanding <= r.cap && AllClean(cfgs, r, s, hs)
    ensures IsFleetRun(cfgs, r, s, hs[..k])
  {
    hide Fits, Allowed, CleanAt, Tick;
    if k > 0 {
      CleanRun(cfgs, r, s, hs, k - 1);
      FleetRunStep(cfgs, r, s, hs, k - 1);
    }
  }

  // A scheduler run is, at every point, the fleet run of the session events it
  // amounts to, if and only if it starts only idle sessions, each once. Everything
  // proved of fleet runs then holds under the scheduler.
  lemma HistoryIsFleetRunIff(cfgs: seq<Config>, r: Rates, s: Sched, hs: seq<Happening>)
    requires Fits(cfgs, s) && AllAllowed(cfgs, hs) && s.f.n.outstanding <= r.cap
    ensures (forall k :: 0 <= k <= |hs| ==> IsFleetRun(cfgs, r, s, hs[..k])) <==> AllClean(cfgs, r, s, hs)
  {
    hide Fits, Allowed, CleanAt, IsFleetRun;
    if AllClean(cfgs, r, s, hs) {
      forall k | 0 <= k <= |hs| ensures IsFleetRun(cfgs, r, s, hs[..k]) {
        CleanRun(cfgs, r, s, hs, k);
      }
    } else if forall k :: 0 <= k <= |hs| ==> IsFleetRun(cfgs, r, s, hs[..k]) {
      var k :| 0 <= k < |hs| && !CleanAt(cfgs, r, s, hs, k);
      assert IsFleetRun(cfgs, r, s, hs[..k]) && IsFleetRun(cfgs, r, s, hs[..k + 1]);
      FleetRunStep(cfgs, r, s, hs, k);
    }
  }

  // ---- The established and the terminated counter

  predicate InCensus(s: SessionState) {
    s.Established? || s.Terminated?
  }

  // A tick starts a session that one of these two counters counts.
  ghost predicate LaunchesCounted(cfgs: seq<Config>, r: Rates, s: Sched, h: Happening)
    requires Fits(cfgs, s)
  {
    var q := Launches(r, s, h);
    exists i :: 0 <= i < |q| && InCensus(s.f.sessions[q[i]].state)
  }

  lemma {:induction false} TallyPointwise(a: seq<Session>, b: seq<Session>, k: Kind)
    requires |a| == |b| && forall i :: 0 <= i < |a| ==> Member(b[i].state, k) <= Member(a[i].state, k)
    ensures Tally(b, k) <= Tally(a, k)
    ensures Tally(b, k) == Tally(a, k) <==> forall i :: 0 <= i < |a| ==> Member(b[i].state, k) == Member(a[i].state, k)
  {
    hide Member;
    if a != [] {
      TallyPointwise(a[1..], b[1..], k);
      assert forall i :: 1 <= i < |a| ==> a[i] == a[1..][i - 1] && b[i] == b[1..][i - 1];
      assert forall i :: 0 <= i < |a| - 1 ==> a[1..][i] == a[i + 1] && b[1..][i] == b[i + 1];
    }
  }

  lemma LaunchedMember(s: Session, k: Kind)
    requires k.Up? || k.Gone?
    ensures Member(Launch(s).state, k) == 0 <= Member(s.state, k)
    ensures (Member(s.state, Up) == 0 && Member(s.state, Gone) == 0) <==> !InCensus(s.state)
  {
  }

  lemma LaunchedTally(ss: seq<Session>, q: seq<int>, k: Kind)
    requires InRange(q, |ss|) && (k.Up? || k.Gone?)
    ensures Tally(Launched(ss, q), k) <= Tally(ss, k)
    ensures Tally(Launched(ss, q), k) == Tally(ss, k) <==> forall i :: 0 <= i < |q| ==> Member(ss[q[i]].state, k) == 0
  {
    hide Member, Launch, Tally;
    var tt := Launched(ss, q);
    forall i | 0 <= i < |ss|
      ensures Member(tt[i].state, k) <= Member(ss[i].state, k)
      ensures Member(tt[i].state, k) == Member(ss[i].state, k) <==> (i in q ==> Member(ss[i].state, k) == 0)
    {
      LaunchedMember(ss[i], k);
    }
    TallyPointwise(ss, tt, k);
    if forall i :: 0 <= i < |ss| ==> Member(tt[i].state, k) == Member(ss[i].state, k) {
      forall i | 0 <= i < |q| ensures Member(ss[q[i]].state, k) == 0 {
        assert q[i] in q;
      }
    }
    if forall i :: 0 <= i < |q| ==> Member(ss[q[i]].state, k) == 0 {
      forall i | 0 <= i < |ss| ensures Member(tt[i].state, k) == Member(ss[i].state, k) {
      }
    }
  }

  lemma LaunchKeepsIff(cfgs: seq<Config>, r: Rates, s: Sched, h: Happening)
    requires Fits(cfgs, s) && UpAndGone(s.f)
    ensures var q := Launches(r, s, h);
      UpAndGone(Fleet(Launched(s.f.sessions, q), s.f.n.(outstanding := s.f.n.outstanding + |q|)))
      <==> !LaunchesCounted(cfgs, r, s, h)
  {
    hide Member, Launched, Tally;
    var q := Launches(r, s, h);
    LaunchedTally(s.f.sessions, q, Up);
    LaunchedTally(s.f.sessions, q, Gone);
    forall i | 0 <= i < |q|
      ensures (Member(s.f.sessions[q[i]].state, Up) == 0 && Member(s.f.sessions[q[i]].state, Gone) == 0)
        <==> !InCensus(s.f.sessions[q[i]].state)
    {
      LaunchedMember(s.f.sessions[q[i]], Up);
    }
  }

  // Changing the state of one session with its counting keeps both counters exact,
  // whatever the change is.
  lemma CountedKeeps(n: Counters, before: SessionState, after: SessionState, e: Event, up: nat, gone: nat)
    requires n.established == up && n.terminated == gone
    requires Member(before, Up) <= up && Member(before, Gone) <= gone
    requires e.Start? ==> if before.Idle? then after.PppoeInit? else after == before
    requires e.Restart? ==> if before.Terminated? then after.Idle? else after == before
    requires before.Terminated? && !e.Restart? ==> after.Terminated?
    ensures var m := Counted(n, before, after, e);
      && m.established == up - Member(before, Up) + Member(after, Up)
      && m.terminated == gone - Member(before, Gone) + Member(after, Gone)
  {
  }

  lemma TickKeeps(cfgs: seq<Config>, cap: nat, f: Fleet, e: FleetEvent)
    requires |cfgs| == |f.sessions| && e.index < |f.sessions| && Proper(e.event) && UpAndGone(f)
    ensures UpAndGone(Tick(cfgs, cap, f, e))
  {
    hide Step, Member, Counted, Tally;
    var s := f.sessions[e.index];
    var t := Step(cfgs[e.index], s, e.event);
    StartsAndRestartsStep(cfgs[e.index], s, e.event);
    TallyUpdate(f.sessions, e.index, t, Up);
    TallyUpdate(f.sessions, e.index, t, Gone);
    TallyBounds(f.sessions, e.index, Up);
    TallyBounds(f.sessions, e.index, Gone);
    CountedKeeps(f.n, s.state, t.state, e.event, f.n.established, f.n.terminated);
  }

  lemma StartsAndRestartsStep(cfg: Config, s: Session, e: Event)
    requires Proper(e)
    ensures e.Start? ==> if s.state.Idle? then Step(cfg, s, e).state.PppoeInit? else Step(cfg, s, e).state == s.state
    ensures e.Restart? ==> if s.state.Terminated? then Step(cfg, s, e).state.Idle? else Step(cfg, s, e).state == s.state
    ensures s.state.Terminated? && !e.Restart? ==> Step(cfg, s, e).state.Terminated?
  {
  }

  lemma {:induction false} FleetKeeps(cfgs: seq<Config>, cap: nat, f: Fleet, es: seq<FleetEvent>)
    requires |cfgs| == |f.sessions| && Wellformed(cfgs, es) && UpAndGone(f)
    ensures UpAndGone(After(cfgs, cap, f, es))
  {
    hide Tick, UpAndGone, Proper;
    if es != [] {
      FleetKeeps(cfgs, cap, f, es[..|es| - 1]);
      TickKeeps(cfgs, cap, After(cfgs, cap, f, es[..|es| - 1]), es[|es| - 1]);
    }
  }

  lemma NextKeepsIff(cfgs: seq<Config>, r: Rates, s: Sched, h: Happening)
    requires Fits(cfgs, s) && Allowed(cfgs, h) && UpAndGone(s.f)
    ensures UpAndGone(Next(cfgs, r, s, h).f) <==> !LaunchesCounted(cfgs, r, s, h)
  {
    hide Step, ClearSession, CountCleared, DrainLen, Launched, Cleared, Counted, Missing, Resolved, Tally, LaunchesCounted;
    if Launches(r, s, h) == [] {
      NothingLaunched(cfgs, r, s, h);
    }
    match h
    case Request =>
    case Happens(i, e) => TickKeeps(cfgs, r.cap, s.f, FleetEvent(i, e));
    case Job(_, _) =>
      if s.teardown {
        var q := Takes(r, s, h);
        ClearsRun(cfgs, r.cap, s.f, q);
        FleetKeeps(cfgs, r.cap, s.f, Each(q, Clear));
      } else {
        LaunchKeepsIff(cfgs, r, s, h);
        LaunchedNone(s.f.sessions);
      }
  }

  lemma NothingLaunched(cfgs: seq<Config>, r: Rates, s: Sched, h: Happening)
    requires Fits(cfgs, s) && Launches(r, s, h) == []
    ensures !LaunchesCounted(cfgs, r, s, h)
  {
  }

  ghost predicate CountedLaunchAt(cfgs: seq<Config>, r: Rates, s: Sched, hs: seq<Happening>, k: nat)
    requires Fits(cfgs, s) && AllAllowed(cfgs, hs) && k < |hs|
  {
    LaunchesCounted(cfgs, r, History(cfgs, r, s, hs[..k]), hs[k])
  }

  ghost predicate NoCountedLaunch(cfgs: seq<Config>, r: Rates, s: Sched, hs: seq<Happening>)
    requires Fits(cfgs, s) && AllAllowed(cfgs, hs)
  {
    forall k :: 0 <= k < |hs| ==> !CountedLaunchAt(cfgs, r, s, hs, k)
  }

  ghost predicate ExactAt(cfgs: seq<Config>, r: Rates, s: Sched, hs: seq<Happening>, k: nat)
    requires Fits(cfgs, s) && AllAllowed(cfgs, hs) && k <= |hs|
  {
    UpAndGone(History(cfgs, r, s, hs[..k]).f)
  }

  lemma ExactAtStep(cfgs: seq<Config>, r: Rates, s: Sched, hs: seq<Happening>, k: nat)
    requires Fits(cfgs, s) && AllAllowed(cfgs, hs) && k < |hs| && ExactAt(cfgs, r, s, hs, k)
    ensures ExactAt(cfgs, r, s, hs, k + 1) <==> !CountedLaunchAt(cfgs, r, s, hs, k)
  {
    hide Next, LaunchesCounted, UpAndGone, Allowed;
    HistoryStep(cfgs, r, s, hs, k);
    NextKeepsIff(cfgs, r, History(cfgs, r, s, hs[..k]), hs[k]);
  }

  lemma {:induction false} ExactUpTo(cfgs: seq<Config>, r: Rates, s: Sched, hs: seq<Happening>, k: nat)
    requires Fits(cfgs, s) && AllAllowed(cfgs, hs) && k <= |hs| && UpAndGone(s.f) && NoCountedLaunch(cfgs, r, s, hs)
    ensures ExactAt(cfgs, r, s, hs, k)
  {
    hide Next, UpAndGone, Allowed, CountedLaunchAt;
    if k == 0 {
      assert hs[..0] == [];
    } else {
      ExactUpTo(cfgs, r, s, hs, k - 1);
      ExactAtStep(cfgs, r, s, hs, k - 1);
    }
  }

  // Under the control job, in any run, the established and the terminated counter
  // are exact throughout if and only if no tick starts a session that is
  // established or terminated.
  lemma CountersExactIff(cfgs: seq<Config>, r: Rates, s: Sched, hs: seq<Happening>)
    requires Fits(cfgs, s) && AllAllowed(cfgs, hs) && UpAndGone(s.f)
    ensures (forall k :: 0 <= k <= |hs| ==> ExactAt(cfgs, r, s, hs, k)) <==> NoCountedLaunch(cfgs, r, s, hs)
  {
    hide Fits, Allowed, ExactAt, CountedLaunchAt, UpAndGone;
    if NoCountedLaunch(cfgs, r, s, hs) {
      forall k | 0 <= k <= |hs| ensures ExactAt(cfgs, r, s, hs, k) {
        ExactUpTo(cfgs, r, s, hs, k);
      }
    } else if forall k :: 0 <= k <= |hs| ==> ExactAt(cfgs, r, s, hs, k) {
      var k :| 0 <= k < |hs| && CountedLaunchAt(cfgs, r, s, hs, k);
      assert ExactAt(cfgs, r, s, hs, k) && ExactAt(cfgs, r, s, hs, k + 1);
      ExactAtStep(cfgs, r, s, hs, k);
    }
  }

  // In such a run the exit test of the event loop holds exactly when every session
  // is terminated.
  lemma LoopExitsIff(cfgs: seq<Config>, r: Rates, s: Sched, hs: seq<Happening>)
    requires Fits(cfgs, s) && AllAllowed(cfgs, hs) && UpAndGone(s.f) && NoCountedLaunch(cfgs, r, s, hs)
    ensures var t := History(cfgs, r, s, hs).f;
      t.n.terminated >= |cfgs| <==> forall i :: 0 <= i < |cfgs| ==> t.sessions[i].state.Terminated?
  {
    hide Next, Allowed, Tally, NoCountedLaunch;
    ExactUpTo(cfgs, r, s, hs, |hs|);
    assert hs[..|hs|] == hs;
    AllGoneIff(History(cfgs, r, s, hs).f.sessions);
  }

  // ---- The idle queue and the reconnect

  // A reconnect of a session that is still on the idle queue.
  predicate Requeues(s: Sched, h: Happening)
    requires h.Happens? ==> h.index < |s.f.sessions|
  {
    h.Happens? && h.event.Restart? && !s.teardown && s.f.sessions[h.index].state.Terminated? && h.index in s.idle
  }

  ghost predicate RequeuesAt(cfgs: seq<Config>, r: Rates, s: Sched, hs: seq<Happening>, k: nat)
    requires Fits(cfgs, s) && AllAllowed(cfgs, hs) && k < |hs|
  {
    Requeues(History(cfgs, r, s, hs[..k]), hs[k])
  }

  ghost predicate NeverRequeues(cfgs: seq<Config>, r: Rates, s: Sched, hs: seq<Happening>)
    requires Fits(cfgs, s) && AllAllowed(cfgs, hs)
  {
    forall k :: 0 <= k < |hs| ==> !RequeuesAt(cfgs, r, s, hs, k)
  }

  ghost predicate DistinctAt(cfgs: seq<Config>, r: Rates, s: Sched, hs: seq<Happening>, k: nat)
    requires Fits(cfgs, s) && AllAllowed(cfgs, hs) && k <= |hs|
  {
    Distinct(History(cfgs, r, s, hs[..k]).idle)
  }

  lemma NextDistinctIff(cfgs: seq<Config>, r: Rates, s: Sched, h: Happening)
    requires Fits(cfgs, s) && Allowed(cfgs, h) && Distinct(s.idle)
    ensures Distinct(Next(cfgs, r, s, h).idle) <==> !Requeues(s, h)
  {
    hide Step, ClearSession, CountCleared, DrainLen, Launched, Cleared, Counted, Missing, Resolved, Tick, StartCount;
    StartCountBound(r, s.f.n.outstanding, |s.idle|);
    if Requeues(s, h) {
      var q := s.idle + [h.index];
      var i :| 0 <= i < |s.idle| && s.idle[i] == h.index;
      assert q[i] == q[|s.idle|];
    }
  }

  lemma DistinctAtStep(cfgs: seq<Config>, r: Rates, s: Sched, hs: seq<Happening>, k: nat)
    requires Fits(cfgs, s) && AllAllowed(cfgs, hs) && k < |hs| && DistinctAt(cfgs, r, s, hs, k)
    ensures DistinctAt(cfgs, r, s, hs, k + 1) <==> !RequeuesAt(cfgs, r, s, hs, k)
  {
    hide Next, Allowed, Requeues, Distinct;
    HistoryStep(cfgs, r, s, hs, k);
    NextDistinctIff(cfgs, r, History(cfgs, r, s, hs[..k]), hs[k]);
  }

  lemma {:induction false} DistinctUpTo(cfgs: seq<Config>, r: Rates, s: Sched, hs: seq<Happening>, k: nat)
    requires Fits(cfgs, s) && AllAllowed(cfgs, hs) && k <= |hs| && Distinct(s.idle) && NeverRequeues(cfgs, r, s, hs)
    ensures DistinctAt(cfgs, r, s, hs, k)
  {
    hide Next, Allowed, RequeuesAt, Distinct;
    if k == 0 {
      assert hs[..0] == [];
    } else {
      DistinctUpTo(cfgs, r, s, hs, k - 1);
      DistinctAtStep(cfgs, r, s, hs, k - 1);
    }
  }

  // No session is on the idle queue twice, throughout a run, if and only if no
  // reconnect hits a session that is still on it. Up to the first such reconnect the
  // links hold the queue (Rings.InsertLinksIff); after it they hold none.
  lemma DistinctIff(cfgs: seq<Config>, r: Rates, s: Sched, hs: seq<Happening>)
    requires Fits(cfgs, s) && AllAllowed(cfgs, hs) && Distinct(s.idle)
    ensures (forall k :: 0 <= k <= |hs| ==> DistinctAt(cfgs, r, s, hs, k)) <==> NeverRequeues(cfgs, r, s, hs)
  {
    hide Fits, Allowed, DistinctAt, RequeuesAt, Distinct;
    if NeverRequeues(cfgs, r, s, hs) {
      forall k | 0 <= k <= |hs| ensures DistinctAt(cfgs, r, s, hs, k) {
        DistinctUpTo(cfgs, r, s, hs, k);
      }
    } else if forall k :: 0 <= k <= |hs| ==> DistinctAt(cfgs, r, s, hs, k) {
      var k :| 0 <= k < |hs| && RequeuesAt(cfgs, r, s, hs, k);
      assert DistinctAt(cfgs, r, s, hs, k) && DistinctAt(cfgs, r, s, hs, k + 1);
      DistinctAtStep(cfgs, r, s, hs, k);
    }
  }

  // A stop and a start command for a session that still waits queue it twice.
  lemma StoppedAndStarted(cfg: Config, r: Rates, s: Session)
    requires s.state.Idle?
    ensures var a := Sched(false, false, false, [0], [], Fleet([s], Counters(0, 0, 0)));
      Fits([cfg], a)
      && var b := Next([cfg], r, a, Happens(0, Clear));
      && Fits([cfg], b) && Requeues(b, Happens(0, Restart))
      && Next([cfg], r, b, Happens(0, Restart)).idle == [0, 0]
  {
    var a := Sched(false, false, false, [0], [], Fleet([s], Counters(0, 0, 0)));
    NextFits([cfg], r, a, Happens(0, Clear));
  }

  // ---- Without such a reconnect

  // Queued sessions are idle or were cleared while they waited.
  ghost predicate QueueInv(s: Sched) {
    Phased(s) && (!s.teardown ==>
      Distinct(s.idle) && forall i :: 0 <= i < |s.f.sessions| && i in s.idle ==> Waiting(s.f.sessions[i]))
  }

  lemma EventKeepsQueue(cfgs: seq<Config>, r: Rates, s: Sched, h: Happening)
    requires Fits(cfgs, s) && AllValid(cfgs) && Allowed(cfgs, h) && h.Happens? && QueueInv(s) && !Requeues(s, h)
    ensures QueueInv(Next(cfgs, r, s, h))
  {
    hide Step, ClearSession, PhaseInv, Counted;
    var i := h.index;
    IdleMoves(cfgs[i], s.f.sessions[i], h.event);
    if Waiting(s.f.sessions[i]) {
      WaitingMoves(cfgs[i], s.f.sessions[i], h.event);
    }
    StartsAndRestartsStep(cfgs[i], s.f.sessions[i], h.event);
    if !s.teardown {
      NextDistinctIff(cfgs, r, s, h);
    }
    var t := Next(cfgs, r, s, h);
    forall j | 0 <= j < |cfgs| && j in t.idle && !s.teardown ensures Waiting(t.f.sessions[j]) {
      assert j in s.idle + [i] <==> j in s.idle || j == i;
    }
  }

  lemma StartKeepsQueue(cfgs: seq<Config>, r: Rates, s: Sched)
    requires Fits(cfgs, s) && QueueInv(s) && !s.teardown
    ensures QueueInv(StartSome(r, s))
  {
    hide PhaseInv, Launch, StartCount, Waiting;
    var k := StartCount(r, s.f.n.outstanding, |s.idle|);
    StartCountBound(r, s.f.n.outstanding, |s.idle|);
    var t := StartSome(r, s);
    forall j | 0 <= j < |cfgs|
      ensures PhaseInv(View(t.f.sessions[j])) && (j in t.idle ==> Waiting(t.f.sessions[j]))
    {
      Partition(s.idle, k, j);
      LaunchWaiting(s.f.sessions[j]);
    }
  }

  lemma JobKeepsQueue(cfgs: seq<Config>, r: Rates, s: Sched, h: Happening)
    requires Fits(cfgs, s) && QueueInv(s) && h.Job?
    ensures QueueInv(Next(cfgs, r, s, h))
  {
    hide ClearSession, PhaseInv, CountCleared, DrainLen, StartSome, Waiting, Resolved;
    if s.teardown {
      var t := Next(cfgs, r, s, h);
      forall j | 0 <= j < |cfgs| ensures PhaseInv(View(t.f.sessions[j])) {
        ClearTerminates(s.f.sessions[j]);
      }
    } else {
      StartKeepsQueue(cfgs, r, s.(init := false));
    }
  }

  lemma LaunchWaiting(s: Session)
    ensures Waiting(s) ==> PhaseInv(View(Launch(s)))
  {
  }

  lemma NextKeepsQueue(cfgs: seq<Config>, r: Rates, s: Sched, h: Happening)
    requires Fits(cfgs, s) && AllValid(cfgs) && Allowed(cfgs, h) && QueueInv(s) && !Requeues(s, h)
    ensures QueueInv(Next(cfgs, r, s, h))
  {
    match h
    case Job(_, _) =>
      hide Next;
      JobKeepsQueue(cfgs, r, s, h);
    case Happens(_, _) =>
      hide Next, Requeues;
      EventKeepsQueue(cfgs, r, s, h);
    case Request =>
      hide Fits;
  }

  lemma {:induction false} QueueUpTo(cfgs: seq<Config>, r: Rates, s: Sched, hs: seq<Happening>, k: nat)
    requires Fits(cfgs, s) && AllValid(cfgs) && AllAllowed(cfgs, hs) && k <= |hs| && QueueInv(s) && NeverRequeues(cfgs, r, s, hs)
    ensures QueueInv(History(cfgs, r, s, hs[..k]))
  {
    hide Next, Allowed, QueueInv, Requeues, Fits;
    if k == 0 {
      assert hs[..0] == [];
    } else {
      QueueUpTo(cfgs, r, s, hs, k - 1);
      assert !RequeuesAt(cfgs, r, s, hs, k - 1);
      HistoryStep(cfgs, r, s, hs, k - 1);
      NextKeepsQueue(cfgs, r, History(cfgs, r, s, hs[..k - 1]), hs[k - 1]);
    }
  }

  // A tick that starts a session which is not idle.
  ghost predicate LaunchesBusy(cfgs: seq<Config>, r: Rates, s: Sched, h: Happening)
    requires Fits(cfgs, s)
  {
    var q := Launches(r, s, h);
    exists i :: 0 <= i < |q| && !s.f.sessions[q[i]].state.Idle?
  }

  lemma BusyIsCounted(cfgs: seq<Config>, r: Rates, s: Sched, h: Happening)
    requires Fits(cfgs, s) && QueueInv(s)
    ensures LaunchesBusy(cfgs, r, s, h) <==> LaunchesCounted(cfgs, r, s, h)
    ensures LaunchesBusy(cfgs, r, s, h) <==> !Clean(cfgs, r, s, h)
  {
    hide StartCount, Resolved, PhaseInv;
    StartCountBound(r, s.f.n.outstanding, |s.idle|);
    var q := Launches(r, s, h);
    forall i | 0 <= i < |q| ensures InCensus(s.f.sessions[q[i]].state) <==> !s.f.sessions[q[i]].state.Idle? {
      assert q[i] in s.idle && Waiting(s.f.sessions[q[i]]);
    }
  }

  ghost predicate BusyLaunchAt(cfgs: seq<Config>, r: Rates, s: Sched, hs: seq<Happening>, k: nat)
    requires Fits(cfgs, s) && AllAllowed(cfgs, hs) && k < |hs|
  {
    LaunchesBusy(cfgs, r, History(cfgs, r, s, hs[..k]), hs[k])
  }

  ghost predicate NoBusyLaunch(cfgs: seq<Config>, r: Rates, s: Sched, hs: seq<Happening>)
    requires Fits(cfgs, s) && AllAllowed(cfgs, hs)
  {
    forall k :: 0 <= k < |hs| ==> !BusyLaunchAt(cfgs, r, s, hs, k)
  }

  // As long as no reconnect hits a queued session, one condition decides both: the
  // run is a fleet run, and the two counters are exact, if and only if no tick
  // starts a session that is not idle.
  lemma BusyLaunchIff(cfgs: seq<Config>, r: Rates, s: Sched, hs: seq<Happening>)
    requires Fits(cfgs, s) && AllValid(cfgs) && AllAllowed(cfgs, hs) && QueueInv(s) && NeverRequeues(cfgs, r, s, hs)
    requires UpAndGone(s.f) && s.f.n.outstanding <= r.cap
    ensures (forall k :: 0 <= k <= |hs| ==> ExactAt(cfgs, r, s, hs, k)) <==> NoBusyLaunch(cfgs, r, s, hs)
    ensures AllClean(cfgs, r, s, hs) <==> NoBusyLaunch(cfgs, r, s, hs)
  {
    hide Next, Allowed, QueueInv, UpAndGone, LaunchesBusy, LaunchesCounted, Clean, NeverRequeues, ExactAt, Fits;
    forall k | 0 <= k < |hs|
      ensures BusyLaunchAt(cfgs, r, s, hs, k) <==> CountedLaunchAt(cfgs, r, s, hs, k)
      ensures BusyLaunchAt(cfgs, r, s, hs, k) <==> !CleanAt(cfgs, r, s, hs, k)
    {
      QueueUpTo(cfgs, r, s, hs, k);
      BusyIsCounted(cfgs, r, History(cfgs, r, s, hs[..k]), hs[k]);
    }
    CountersExactIff(cfgs, r, s, hs);
  }

  // ---- The program's assertions

  // Event k of the fleet run meets the assertions about the counters.
  ghost predicate AssertsAt(cfgs: seq<Config>, cap: nat, f: Fleet, es: seq<FleetEvent>, k: nat)
    requires |cfgs| == |f.sessions| && Wellformed(cfgs, es) && k < |es|
  {
    var g := After(cfgs, cap, f, es[..k]);
    Asserts(g.n, g.sessions[es[k].index].state, After(cfgs, cap, f, es[..k + 1]).sessions[es[k].index].state, |cfgs|)
  }

  // In a clean run without a reopened session every state change under the control
  // job, the clearings of a drain tick included, meets the program's assertions.
  lemma AssertionsHoldScheduled(cfgs: seq<Config>, r: Rates, s: Sched, hs: seq<Happening>, k: nat)
    requires Fits(cfgs, s) && AllValid(cfgs) && AllAllowed(cfgs, hs) && FleetStarts(s.f) && AllClean(cfgs, r, s, hs)
    requires NeverReopens(cfgs, r.cap, s.f, Trace(cfgs, r, s, hs))
    requires k < |Trace(cfgs, r, s, hs)|
    ensures History(cfgs, r, s, hs).f == After(cfgs, r.cap, s.f, Trace(cfgs, r, s, hs))
    ensures var e := Trace(cfgs, r, s, hs)[k].event;
      !e.Start? && !e.Restart? ==> AssertsAt(cfgs, r.cap, s.f, Trace(cfgs, r, s, hs), k)
  {
    hide Next, Allowed, Amounts, Tick, Clean, Initial, Asserts, NeverReopens, Tally, Fits;
    FitsRange(cfgs, s);
    CleanRun(cfgs, r, s, hs, |hs|);
    assert hs[..|hs|] == hs;
    var es := Trace(cfgs, r, s, hs);
    if !es[k].event.Start? && !es[k].event.Restart? {
      AssertionsHold(cfgs, r.cap, s.f, es, k);
    }
  }

  // After the clearing of a waiting session that SchedulerRuns.ClearedWhileWaiting
  // shows, the exit test holds while the session is being set up, and its next
  // clearing breaks the assertion about the terminated sessions.
  lemma ExitsEarly(cfg: Config, r: Rates, s: Session)
    requires s.state.Idle? && r.start > 0 && r.cap > 0
    ensures var a := Sched(false, false, false, [0], [], Fleet([s], Counters(0, 0, 0)));
      Fits([cfg], a)
      && var b := Next([cfg], r, a, Happens(0, Clear));
      && Fits([cfg], b) && LaunchesBusy([cfg], r, b, Job([], true))
      && var c := Next([cfg], r, b, Job([], true));
      && c.f.n.terminated >= 1 && !c.f.sessions[0].state.Terminated?
      && !Asserts(c.f.n, c.f.sessions[0].state, ClearSession(c.f.sessions[0]).state, 1)
  {
    ClearedWhileWaiting(cfg, r, s);
    var a := Sched(false, false, false, [0], [], Fleet([s], Counters(0, 0, 0)));
    var b := Next([cfg], r, a, Happens(0, Clear));
    assert b.f.sessions[0].state.Terminated?;
    assert Launches(r, b, Job([], true))[0] == 0;
  }
}
