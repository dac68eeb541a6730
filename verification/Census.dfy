/**
 The global session counters. The program keeps them by increments and
 decrements scattered over state changes and asserts that they stay in range;
 here they are compared with a census of all sessions, over every run of a fleet.
 */
module Census {
  import opened Types
  import opened ClientSpec
  import opened Skeleton
  import opened ClientRuns

  datatype Counters = Counters(outstanding: nat, established: nat, terminated: nat)

  // The counting part of bbl_session_update_state.
  function Account(n: Counters, before: SessionState, after: SessionState): Counters {
    if before == after then n else
    n.(established := (if before.Established? && n.established > 0 then n.established - 1 else n.established)
                      + (if after.Established? then 1 else 0),
       outstanding := if Finishes(before, after) && n.outstanding > 0 then n.outstanding - 1 else n.outstanding,
       terminated := n.terminated + (if after.Terminated? then 1 else 0))
  }

  predicate Finishes(before: SessionState, after: SessionState) {
    InSetup(before) && Rank(Established) <= Rank(after)
  }

  // The assertions the program makes about the counters on a state change.
  predicate Asserts(n: Counters, before: SessionState, after: SessionState, sessions: nat) {
    before != after ==>
      && (Finishes(before, after) ==> n.outstanding > 0)
      && (after.Established? ==> Account(n, before, after).established <= sessions)
      && (after.Terminated? ==> Account(n, before, after).terminated <= sessions)
  }

  datatype Fleet = Fleet(sessions: seq<Session>, n: Counters)

  // An event of one session. The scheduler starts a session only below the cap.
  datatype FleetEvent = FleetEvent(index: nat, event: Event)

  predicate MayStart(cap: nat, f: Fleet, e: FleetEvent) {
    e.event.Start? ==> f.n.outstanding < cap
  }

  ghost function Tick(cfgs: seq<Config>, cap: nat, f: Fleet, e: FleetEvent): Fleet
    requires |cfgs| == |f.sessions| && e.index < |f.sessions| && Proper(e.event)
  {
    if !MayStart(cap, f, e) then f else
    var s := f.sessions[e.index];
    var t := Step(cfgs[e.index], s, e.event);
    Fleet(f.sessions[e.index := t], Counted(f.n, s.state, t.state, e.event))
  }

  // Start and restart set the state directly, with their own counting.
  function Counted(n: Counters, before: SessionState, after: SessionState, e: Event): Counters {
    if e.Start? then (if before.Idle? then n.(outstanding := n.outstanding + 1) else n)
    else if e.Restart? then
      (if before.Terminated? && n.terminated > 0 then n.(terminated := n.terminated - 1) else n)
    else Account(n, before, after)
  }

  ghost predicate Wellformed(cfgs: seq<Config>, es: seq<FleetEvent>) {
    forall k :: 0 <= k < |es| ==> es[k].index < |cfgs| && Proper(es[k].event)
  }

  ghost function After(cfgs: seq<Config>, cap: nat, f: Fleet, es: seq<FleetEvent>): (g: Fleet)
    requires |cfgs| == |f.sessions| && Wellformed(cfgs, es)
    ensures |g.sessions| == |f.sessions|
  {
    if es == [] then f else Tick(cfgs, cap, After(cfgs, cap, f, es[..|es| - 1]), es[|es| - 1])
  }

  // ---- Census

  datatype Kind = Setup | Up | Gone

  function Member(s: SessionState, k: Kind): nat {
    match k
    case Setup => if InSetup(s) then 1 else 0
    case Up => if s.Established? then 1 else 0
    case Gone => if s.Terminated? then 1 else 0
  }

  function Tally(ss: seq<Session>, k: Kind): nat {
    if ss == [] then 0 else Member(ss[0].state, k) + Tally(ss[1..], k)
  }

  lemma {:induction false} TallyUpdate(ss: seq<Session>, i: nat, t: Session, k: Kind)
    requires i < |ss|
    ensures Tally(ss[i := t], k) == Tally(ss, k) - Member(ss[i].state, k) + Member(t.state, k)
  {
    hide Member;
    if i == 0 {
      assert ss[0 := t][1..] == ss[1..];
    } else {
      TallyUpdate(ss[1..], i - 1, t, k);
      assert ss[i := t][1..] == ss[1..][i - 1 := t];
    }
  }

  lemma {:induction false} TallyBounds(ss: seq<Session>, i: nat, k: Kind)
    requires i < |ss|
    ensures Member(ss[i].state, k) <= Tally(ss, k) <= |ss|
  {
    if i > 0 {
      TallyBounds(ss[1..], i - 1, k);
    } else if |ss| > 1 {
      TallyBounds(ss[1..], 0, k);
    } else {
      assert Tally(ss[1..], k) == 0;
    }
  }

  // What the counters should be.
  predicate UpAndGone(f: Fleet) {
    f.n.established == Tally(f.sessions, Up) && f.n.terminated == Tally(f.sessions, Gone)
  }

  predicate Exact(f: Fleet) {
    UpAndGone(f) && f.n.outstanding == Tally(f.sessions, Setup)
  }

  // A session in the established phase whose LCP negotiation completes now.
  predicate ReopensEstablished(cfg: Config, s: Session, e: Event) {
    s.state.Established?
    && ((s.lcp.state.PeerAck? && HearsConfAck(s, e))
        || (s.lcp.state.LocalAck? && HearsConfRequest(s, e) && AcceptsLcp(cfg, e.packet.lcp)))
  }

  // ---- One event

  // How an event can move a session between the kinds that are counted.
  lemma Moves(cfg: Config, c: Control, i: Stimulus)
    requires PhaseInv(c) && Enabled(cfg, c, i)
    ensures var d := Advance(cfg, c, i);
      && (d.state.Idle? && !c.state.Idle? ==> i.Restarted?)
      && (i.Started? ==> c.state.Idle? && InSetup(d.state))
      && (c.state.Idle? && InSetup(d.state) ==> i.Started?)
      && (c.state.Terminated? && !i.Restarted? ==> d.state.Terminated?)
      && (InTermination(c.state) ==> !InSetup(d.state))
      && (c.state.Established? && InSetup(d.state)
          <==> c.state.Established? && ((c.lcp.PeerAck? && i.OwnAgreed?) || (c.lcp.LocalAck? && i.PeerAgreed?)))
  {
  }

  lemma ReopenStimulus(cfg: Config, s: Session, e: Event)
    ensures ReopensEstablished(cfg, s, e)
       <==> s.state.Established? && ((s.lcp.state.PeerAck? && StimulusOf(cfg, s, e).OwnAgreed?)
                                     || (s.lcp.state.LocalAck? && StimulusOf(cfg, s, e).PeerAgreed?))
  {
    hide NaksAuth, NegotiatedAuth, OnConfAck, OnConfRequest, HostUniqMatches, Served;
  }

  lemma StartStimulus(cfg: Config, s: Session, e: Event)
    ensures StimulusOf(cfg, s, e).Started? <==> e.Start? && s.state.Idle?
    ensures e.Start? && !s.state.Idle? ==> StimulusOf(cfg, s, e).Quiet?
    ensures StimulusOf(cfg, s, e).Restarted? <==> e.Restart? && s.state.Terminated?
    ensures e.Restart? && !s.state.Terminated? ==> StimulusOf(cfg, s, e).Quiet?
  {
    hide NaksAuth, NegotiatedAuth, OnConfAck, OnConfRequest, HostUniqMatches, Served, AcceptsPads;
  }

  // The states before and after an event, as far as counting is concerned.
  predicate Transition(before: SessionState, after: SessionState, e: Event, reopens: bool) {
    && (e.Start? ==> if before.Idle? then InSetup(after) else after == before)
    && (e.Restart? ==> if before.Terminated? then after.Idle? else after == before)
    && (!e.Start? && !e.Restart? ==>
          && (after.Idle? ==> before.Idle?)
          && (before.Idle? ==> !InSetup(after))
          && (before.Terminated? ==> after.Terminated?)
          && (InTermination(before) ==> !InSetup(after))
          && (before.Established? ==> (InSetup(after) <==> reopens)))
    && (reopens ==> before.Established? && !e.Start? && !e.Restart?)
  }

  lemma SessionMoves(cfg: Config, s: Session, e: Event)
    requires ValidConfig(cfg) && PhaseInv(View(s)) && Proper(e)
    ensures Transition(s.state, Step(cfg, s, e).state, e, ReopensEstablished(cfg, s, e))
    ensures PhaseInv(View(Step(cfg, s, e)))
  {
    hide Step, StimulusOf, Advance, Enabled, PhaseInv, Observe, Watch, ReopensEstablished;
    StepOf(cfg, s, FRESH, e);
    var i := StimulusOf(cfg, s, e);
    Moves(cfg, View(s), i);
    ReopenStimulus(cfg, s, e);
    StartStimulus(cfg, s, e);
    PhaseInvStep(cfg, View(s), i);
    StartsAndRestarts(cfg, View(s), i);
  }

  lemma StartsAndRestarts(cfg: Config, c: Control, i: Stimulus)
    ensures i.Quiet? ==> Advance(cfg, c, i).state == c.state
    ensures i.Restarted? ==> Advance(cfg, c, i).state.Idle?
  {
  }

  // Counting one transition keeps the counters equal to the census, except that
  // a reopened session is missing from the outstanding ones.
  lemma CountStep(n: Counters, before: SessionState, after: SessionState, e: Event, reopens: bool,
                  setup: nat, up: nat, gone: nat, sessions: nat)
    requires Transition(before, after, e, reopens)
    requires Member(before, Setup) <= setup <= sessions
    requires Member(before, Up) <= up <= sessions && Member(before, Gone) <= gone <= sessions
    requires up - Member(before, Up) + Member(after, Up) <= sessions
    requires gone - Member(before, Gone) + Member(after, Gone) <= sessions
    requires n.established == up && n.terminated == gone
    ensures var m := Counted(n, before, after, e);
      && m.established == up - Member(before, Up) + Member(after, Up)
      && m.terminated == gone - Member(before, Gone) + Member(after, Gone)
      && (n.outstanding == setup ==>
            (m.outstanding == setup - Member(before, Setup) + Member(after, Setup) <==> !reopens))
      && (n.outstanding == setup && !e.Start? && !e.Restart? ==> Asserts(n, before, after, sessions))
      && m.outstanding <= n.outstanding + (if e.Start? then 1 else 0)
  {
  }

  // ---- Runs

  ghost predicate FleetInv(cap: nat, f: Fleet) {
    && UpAndGone(f)
    && f.n.outstanding <= cap
    && forall i :: 0 <= i < |f.sessions| ==> PhaseInv(View(f.sessions[i]))
  }

  lemma TickStep(cfgs: seq<Config>, cap: nat, f: Fleet, e: FleetEvent)
    requires |cfgs| == |f.sessions| && e.index < |f.sessions| && Proper(e.event) && ValidConfig(cfgs[e.index])
    requires FleetInv(cap, f)
    ensures var g := Tick(cfgs, cap, f, e);
      var s := f.sessions[e.index];
      && FleetInv(cap, g)
      && (Exact(f) ==> (Exact(g) <==> !ReopensEstablished(cfgs[e.index], s, e.event)))
      && (Exact(f) && !e.event.Start? && !e.event.Restart? ==>
            Asserts(f.n, s.state, g.sessions[e.index].state, |f.sessions|))
  {
    hide Step, Observe, PhaseInv, ReopensEstablished, Transition, Member, Asserts, Counted;
    var s := f.sessions[e.index];
    var cfg := cfgs[e.index];
    var t := Step(cfg, s, e.event);
    OnlyPackets(cfg, s, e.event);
    if MayStart(cap, f, e) {
      SessionMoves(cfg, s, e.event);
      TallyUpdate(f.sessions, e.index, t, Setup);
      TallyUpdate(f.sessions, e.index, t, Up);
      TallyUpdate(f.sessions, e.index, t, Gone);
      TallyBounds(f.sessions, e.index, Setup);
      TallyBounds(f.sessions, e.index, Up);
      TallyBounds(f.sessions, e.index, Gone);
      TallyBounds(f.sessions[e.index := t], e.index, Up);
      TallyBounds(f.sessions[e.index := t], e.index, Gone);
      CountStep(f.n, s.state, t.state, e.event, ReopensEstablished(cfg, s, e.event),
                Tally(f.sessions, Setup), Tally(f.sessions, Up), Tally(f.sessions, Gone), |f.sessions|);
    }
  }

  lemma OnlyPackets(cfg: Config, s: Session, e: Event)
    ensures ReopensEstablished(cfg, s, e) ==> e.Rx? && s.state.Established?
  {
  }

  ghost predicate FleetStarts(f: Fleet) {
    && (forall i :: 0 <= i < |f.sessions| ==> Initial(f.sessions[i]))
    && Exact(f) && f.n.outstanding == 0
  }

  ghost predicate AllValid(cfgs: seq<Config>) {
    forall i :: 0 <= i < |cfgs| ==> ValidConfig(cfgs[i])
  }

  lemma RunStep(cfgs: seq<Config>, cap: nat, f: Fleet, es: seq<FleetEvent>, k: nat)
    requires |cfgs| == |f.sessions| && Wellformed(cfgs, es) && k < |es|
    ensures After(cfgs, cap, f, es[..k + 1]) == Tick(cfgs, cap, After(cfgs, cap, f, es[..k]), es[k])
  {
    hide Tick;
    assert es[..k + 1][..k] == es[..k];
  }

  lemma FleetRun(cfgs: seq<Config>, cap: nat, f: Fleet, es: seq<FleetEvent>)
    requires |cfgs| == |f.sessions| && AllValid(cfgs) && FleetStarts(f) && Wellformed(cfgs, es)
    ensures FleetInv(cap, After(cfgs, cap, f, es))
  {
    if es == [] {
      hide Step;
    } else {
      hide Tick, FleetInv, FleetStarts, Exact, ReopensEstablished, Asserts;
      var n := |es| - 1;
      FleetRun(cfgs, cap, f, es[..n]);
      TickStep(cfgs, cap, After(cfgs, cap, f, es[..n]), es[n]);
    }
  }

  // In every run: the number of established and of terminated sessions is counted
  // exactly, and the outstanding counter never exceeds the configured maximum.
  lemma CountedExactly(cfgs: seq<Config>, cap: nat, f: Fleet, es: seq<FleetEvent>)
    requires |cfgs| == |f.sessions| && AllValid(cfgs) && FleetStarts(f) && Wellformed(cfgs, es)
    ensures var g := After(cfgs, cap, f, es);
      && g.n.established == Tally(g.sessions, Up)
      && g.n.terminated == Tally(g.sessions, Gone)
      && g.n.outstanding <= cap
  {
    hide Tick, FleetStarts;
    FleetRun(cfgs, cap, f, es);
  }

  ghost predicate ReopensAt(cfgs: seq<Config>, cap: nat, f: Fleet, es: seq<FleetEvent>, k: nat)
    requires |cfgs| == |f.sessions| && Wellformed(cfgs, es) && k < |es|
  {
    var g := After(cfgs, cap, f, es[..k]);
    ReopensEstablished(cfgs[es[k].index], g.sessions[es[k].index], es[k].event)
  }

  ghost predicate NeverReopens(cfgs: seq<Config>, cap: nat, f: Fleet, es: seq<FleetEvent>)
    requires |cfgs| == |f.sessions| && Wellformed(cfgs, es)
  {
    forall k :: 0 <= k < |es| ==> !ReopensAt(cfgs, cap, f, es, k)
  }

  lemma ReopensPrefix(cfgs: seq<Config>, cap: nat, f: Fleet, es: seq<FleetEvent>, n: nat, k: nat)
    requires |cfgs| == |f.sessions| && Wellformed(cfgs, es) && k < n <= |es|
    ensures ReopensAt(cfgs, cap, f, es[..n], k) == ReopensAt(cfgs, cap, f, es, k)
  {
    hide After, ReopensEstablished;
    assert es[..n][..k] == es[..k] && es[..n][k] == es[k];
  }

  lemma NeverReopensPrefix(cfgs: seq<Config>, cap: nat, f: Fleet, es: seq<FleetEvent>, n: nat)
    requires |cfgs| == |f.sessions| && Wellformed(cfgs, es) && n <= |es| && NeverReopens(cfgs, cap, f, es)
    ensures NeverReopens(cfgs, cap, f, es[..n])
  {
    hide ReopensAt;
    forall k | 0 <= k < n ensures !ReopensAt(cfgs, cap, f, es[..n], k) {
      ReopensPrefix(cfgs, cap, f, es, n, k);
    }
  }

  // What the last event of a run does to exactness.
  lemma ExactStep(cfgs: seq<Config>, cap: nat, f: Fleet, es: seq<FleetEvent>, k: nat)
    requires |cfgs| == |f.sessions| && AllValid(cfgs) && FleetStarts(f) && Wellformed(cfgs, es) && k < |es|
    requires Exact(After(cfgs, cap, f, es[..k]))
    ensures Exact(After(cfgs, cap, f, es[..k + 1])) <==> !ReopensAt(cfgs, cap, f, es, k)
  {
    hide Tick, FleetInv, FleetStarts, Exact, ReopensEstablished, Asserts, After;
    FleetRun(cfgs, cap, f, es[..k]);
    TickStep(cfgs, cap, After(cfgs, cap, f, es[..k]), es[k]);
    RunStep(cfgs, cap, f, es, k);
  }

  lemma ExactRun(cfgs: seq<Config>, cap: nat, f: Fleet, es: seq<FleetEvent>)
    requires |cfgs| == |f.sessions| && AllValid(cfgs) && FleetStarts(f) && Wellformed(cfgs, es)
    requires NeverReopens(cfgs, cap, f, es)
    ensures Exact(After(cfgs, cap, f, es))
  {
    hide Tick, ReopensAt, Exact;
    if es != [] {
      var n := |es| - 1;
      NeverReopensPrefix(cfgs, cap, f, es, n);
      ExactRun(cfgs, cap, f, es[..n]);
      ExactStep(cfgs, cap, f, es, n);
      assert es[..n + 1] == es;
    }
  }

  lemma FirstReopening(cfgs: seq<Config>, cap: nat, f: Fleet, es: seq<FleetEvent>) returns (k: nat)
    requires |cfgs| == |f.sessions| && Wellformed(cfgs, es) && !NeverReopens(cfgs, cap, f, es)
    ensures k < |es| && ReopensAt(cfgs, cap, f, es, k) && NeverReopens(cfgs, cap, f, es[..k])
    decreases |es|
  {
    hide ReopensAt;
    k :| 0 <= k < |es| && ReopensAt(cfgs, cap, f, es, k);
    if !NeverReopens(cfgs, cap, f, es[..k]) {
      var j := FirstReopening(cfgs, cap, f, es[..k]);
      ReopensPrefix(cfgs, cap, f, es, k, j);
      assert es[..k][..j] == es[..j];
      k := j;
    }
  }

  // The outstanding counter is the number of sessions in setup throughout a run
  // exactly when no established session completes its LCP negotiation in it.
  lemma OutstandingExactIff(cfgs: seq<Config>, cap: nat, f: Fleet, es: seq<FleetEvent>)
    requires |cfgs| == |f.sessions| && AllValid(cfgs) && FleetStarts(f) && Wellformed(cfgs, es)
    ensures (forall k :: 0 <= k <= |es| ==> Exact(After(cfgs, cap, f, es[..k]))) <==> NeverReopens(cfgs, cap, f, es)
  {
    if NeverReopens(cfgs, cap, f, es) {
      forall k | 0 <= k <= |es| ensures Exact(After(cfgs, cap, f, es[..k])) {
        NeverReopensPrefix(cfgs, cap, f, es, k);
        ExactRun(cfgs, cap, f, es[..k]);
      }
    } else {
      hide Tick, ReopensAt, Exact, FleetStarts;
      var k := FirstReopening(cfgs, cap, f, es);
      ExactRun(cfgs, cap, f, es[..k]);
      ExactStep(cfgs, cap, f, es, k);
    }
  }

  // While the counters are exact, the program's assertions about them hold.
  lemma AssertionsHold(cfgs: seq<Config>, cap: nat, f: Fleet, es: seq<FleetEvent>, k: nat)
    requires |cfgs| == |f.sessions| && AllValid(cfgs) && FleetStarts(f) && Wellformed(cfgs, es) && k < |es|
    requires NeverReopens(cfgs, cap, f, es)
    requires !es[k].event.Start? && !es[k].event.Restart?
    ensures var g := After(cfgs, cap, f, es[..k]);
      Asserts(g.n, g.sessions[es[k].index].state, After(cfgs, cap, f, es[..k + 1]).sessions[es[k].index].state, |cfgs|)
  {
    hide Tick, FleetInv, FleetStarts, Exact, ReopensEstablished, Asserts, ReopensAt;
    NeverReopensPrefix(cfgs, cap, f, es, k);
    ExactRun(cfgs, cap, f, es[..k]);
    FleetRun(cfgs, cap, f, es[..k]);
    TickStep(cfgs, cap, After(cfgs, cap, f, es[..k]), es[k]);
    RunStep(cfgs, cap, f, es, k);
  }

  // The event loop may stop exactly when every session is terminated.
  lemma {:induction false} AllGoneIff(ss: seq<Session>)
    ensures Tally(ss, Gone) >= |ss| <==> forall i :: 0 <= i < |ss| ==> ss[i].state.Terminated?
  {
    if ss != [] {
      AllGoneIff(ss[1..]);
      TallyBounds(ss, 0, Gone);
      if |ss| > 1 {
        TallyBounds(ss[1..], 0, Gone);
      }
      assert forall i :: 1 <= i < |ss| ==> ss[i] == ss[1..][i - 1];
      assert forall i :: 0 <= i < |ss[1..]| ==> ss[1..][i] == ss[i + 1];
    }
  }

  lemma StopsIffAllTerminated(cfgs: seq<Config>, cap: nat, f: Fleet, es: seq<FleetEvent>)
    requires |cfgs| == |f.sessions| && AllValid(cfgs) && FleetStarts(f) && Wellformed(cfgs, es)
    ensures var g := After(cfgs, cap, f, es);
      g.n.terminated >= |g.sessions| <==> forall i :: 0 <= i < |g.sessions| ==> g.sessions[i].state.Terminated?
  {
    hide Tick, FleetStarts;
    FleetRun(cfgs, cap, f, es);
    AllGoneIff(After(cfgs, cap, f, es).sessions);
  }

  // A run without premature Protocol-Reject never reopens an established session.
  lemma SafeNeverReopens(cfg: Config, s: Session, es: seq<Event>, e: Event)
    requires ValidConfig(cfg) && Initial(s) && AllProper(es) && NoPremature(cfg, s, es)
    ensures !ReopensEstablished(cfg, Run(cfg, s, FRESH, es).0, e)
  {
    hide Run, NoPremature, Step;
    SafeRun(cfg, s, es);
  }

  // ---- One session of a fleet

  // The events of session i that took effect; a start above the cap does not.
  ghost function Own(cfgs: seq<Config>, cap: nat, f: Fleet, es: seq<FleetEvent>, i: nat): (q: seq<Event>)
    requires |cfgs| == |f.sessions| && Wellformed(cfgs, es)
    ensures AllProper(q)
  {
    if es == [] then []
    else
      var n := |es| - 1;
      var q := Own(cfgs, cap, f, es[..n], i);
      if es[n].index == i && MayStart(cap, After(cfgs, cap, f, es[..n]), es[n]) then q + [es[n].event] else q
  }

  ghost predicate PrematureAt(cfgs: seq<Config>, cap: nat, f: Fleet, es: seq<FleetEvent>, k: nat)
    requires |cfgs| == |f.sessions| && Wellformed(cfgs, es) && k < |es|
  {
    PrematureReject(After(cfgs, cap, f, es[..k]).sessions[es[k].index], es[k].event)
  }

  ghost predicate NeverPremature(cfgs: seq<Config>, cap: nat, f: Fleet, es: seq<FleetEvent>)
    requires |cfgs| == |f.sessions| && Wellformed(cfgs, es)
  {
    forall k :: 0 <= k < |es| ==> !PrematureAt(cfgs, cap, f, es, k)
  }

  lemma TickSession(cfgs: seq<Config>, cap: nat, f: Fleet, e: FleetEvent, i: nat)
    requires |cfgs| == |f.sessions| && e.index < |f.sessions| && Proper(e.event) && i < |cfgs|
    ensures Tick(cfgs, cap, f, e).sessions[i]
         == if e.index == i && MayStart(cap, f, e) then Step(cfgs[i], f.sessions[i], e.event) else f.sessions[i]
  {
    hide Step, Counted;
  }

  // A session of a fleet makes its own run.
  lemma {:induction false} OwnRun(cfgs: seq<Config>, cap: nat, f: Fleet, es: seq<FleetEvent>, i: nat)
    requires |cfgs| == |f.sessions| && Wellformed(cfgs, es) && i < |cfgs|
    ensures After(cfgs, cap, f, es).sessions[i] == Run(cfgs[i], f.sessions[i], FRESH, Own(cfgs, cap, f, es, i)).0
  {
    hide Step, Run, Tick, Proper, MayStart;
    if es == [] {
      RunEmpty(cfgs[i], f.sessions[i]);
    } else {
      var n := |es| - 1;
      OwnRun(cfgs, cap, f, es[..n], i);
      TickSession(cfgs, cap, After(cfgs, cap, f, es[..n]), es[n], i);
      RunSnoc(cfgs[i], f.sessions[i], Own(cfgs, cap, f, es[..n], i), es[n].event);
    }
  }

  lemma {:induction false} OwnSafe(cfgs: seq<Config>, cap: nat, f: Fleet, es: seq<FleetEvent>, i: nat)
    requires |cfgs| == |f.sessions| && Wellformed(cfgs, es) && i < |cfgs| && NeverPremature(cfgs, cap, f, es)
    ensures NoPremature(cfgs[i], f.sessions[i], Own(cfgs, cap, f, es, i))
  {
    hide Run, Tick, Proper, MayStart, PrematureReject, NoPremature;
    if es == [] {
      NonePremature(cfgs[i], f.sessions[i]);
    } else {
      var n := |es| - 1;
      forall k | 0 <= k < n ensures !PrematureAt(cfgs, cap, f, es[..n], k) {
        assert es[..n][..k] == es[..k];
        assert !PrematureAt(cfgs, cap, f, es, k);
      }
      OwnSafe(cfgs, cap, f, es[..n], i);
      OwnRun(cfgs, cap, f, es[..n], i);
      assert !PrematureAt(cfgs, cap, f, es, n);
      NoPrematureSnoc(cfgs[i], f.sessions[i], Own(cfgs, cap, f, es[..n], i), es[n].event);
    }
  }

  lemma NonePremature(cfg: Config, s: Session)
    ensures NoPremature(cfg, s, [])
  {
  }

  lemma NoPrematureSnoc(cfg: Config, s: Session, q: seq<Event>, e: Event)
    requires AllProper(q) && Proper(e)
    ensures AllProper(q + [e])
    ensures NoPremature(cfg, s, q) && !PrematureReject(Run(cfg, s, FRESH, q).0, e) ==> NoPremature(cfg, s, q + [e])
  {
    hide Run, PrematureReject, Proper;
    forall k | 0 <= k <= |q| ensures (q + [e])[..k] == q[..k] {
    }
    assert q[..|q|] == q;
  }

  // Without a premature Protocol-Reject no established session of a fleet reopens, so
  // the outstanding counter is exact throughout.
  lemma SafeFleetCounts(cfgs: seq<Config>, cap: nat, f: Fleet, es: seq<FleetEvent>)
    requires |cfgs| == |f.sessions| && AllValid(cfgs) && FleetStarts(f) && Wellformed(cfgs, es)
    requires NeverPremature(cfgs, cap, f, es)
    ensures forall k :: 0 <= k <= |es| ==> Exact(After(cfgs, cap, f, es[..k]))
  {
    hide Tick, Exact, ReopensEstablished, PrematureReject, Initial, Own, Proper;
    forall k | 0 <= k < |es| ensures !ReopensAt(cfgs, cap, f, es, k) {
      forall j | 0 <= j < k ensures !PrematureAt(cfgs, cap, f, es[..k], j) {
        assert es[..k][..j] == es[..j];
        assert !PrematureAt(cfgs, cap, f, es, j);
      }
      var i := es[k].index;
      OwnRun(cfgs, cap, f, es[..k], i);
      OwnSafe(cfgs, cap, f, es[..k], i);
      SafeNeverReopens(cfgs[i], f.sessions[i], Own(cfgs, cap, f, es[..k], i), es[k].event);
    }
    OutstandingExactIff(cfgs, cap, f, es);
  }

  // A Protocol-Reject during the link phase does: the session is back in setup
  // while the counter says that nothing is outstanding.
  lemma EarlyRejectMiscounts(cfg: Config, cap: nat, s: Session, id: Byte)
    requires ValidConfig(cfg) && s.state.PppLink? && s.lcp.state.PeerAck? && s.ip6cp.state.Disabled?
    ensures var es := [FleetEvent(0, Rx(Lcp(LcpPacket(PROT_REJECT, id, protocol := PROTOCOL_IPCP)))),
                       FleetEvent(0, Rx(Lcp(LcpPacket(CONF_ACK, id))))];
      Wellformed([cfg], es)
      && var g := After([cfg], cap, Fleet([s], Counters(1, 0, 0)), es);
      g.n.outstanding == 0 && Tally(g.sessions, Setup) == 1
  {
    var e0 := FleetEvent(0, Rx(Lcp(LcpPacket(PROT_REJECT, id, protocol := PROTOCOL_IPCP))));
    var e1 := FleetEvent(0, Rx(Lcp(LcpPacket(CONF_ACK, id))));
    var es := [e0, e1];
    var f := Fleet([s], Counters(1, 0, 0));
    hide Step, Observe, StimulusOf, Advance;
    RunStep([cfg], cap, f, es, 0);
    RunStep([cfg], cap, f, es, 1);
    assert es[..0] == [] && es[..2] == es;
    assert After([cfg], cap, f, []) == f;
    var t := Step(cfg, s, e0.event);
    var u := Step(cfg, t, e1.event);
    StepOf(cfg, s, FRESH, e0.event);
    StepOf(cfg, t, FRESH, e1.event);
    RejectThenAck(cfg, s, e0.event.packet.lcp);
    RejectThenAck(cfg, t, e1.event.packet.lcp);
    ReopenedControl(cfg, View(s));
    assert [u][1..] == [];
  }

  lemma ReopenedControl(cfg: Config, c: Control)
    requires ValidConfig(cfg) && c.state.PppLink? && c.lcp.PeerAck? && c.ip6cp.Disabled?
    ensures var d := Advance(cfg, c, ProtocolRejected(PROTOCOL_IPCP));
      d.state.Established? && InSetup(Advance(cfg, d, OwnAgreed).state)
  {
  }

  lemma RejectThenAck(cfg: Config, s: Session, p: LcpPacket)
    requires s.state.PppLink? || s.state.Established?
    ensures p.code == PROT_REJECT ==> StimulusOf(cfg, s, Rx(Lcp(p))) == ProtocolRejected(p.protocol)
    ensures p.code == CONF_ACK ==> StimulusOf(cfg, s, Rx(Lcp(p))) == OwnAgreed
  {
  }
}
