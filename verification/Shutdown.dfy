/**
 How a session ends. A session that is being terminated has a bounded number of steps
 left, and so have all sessions together. A teardown request leads all of them there.
 */
module Shutdown {
  import opened Types
  import opened ClientSpec
  import opened Skeleton
  import opened ClientRuns
  import opened Census
  import opened Scheduler
  import opened SchedulerRuns
  import opened SchedulerCounts

  // ---- One session

  // A pending PADT is what ends a session in the terminating phase.
  predicate PadtPending(s: Session) {
    PhaseInv(View(s)) && (s.state.Terminating? ==> SendDiscovery in s.send)
  }

  predicate Settling(s: Session) {
    PadtPending(s) && InTermination(s.state)
  }

  // The steps left until a session is terminated: up to four Terminate-Requests,
  // each of which the timer asks for and the transmit job sends, then the PADT.
  function StepsLeft(s: Session): nat {
    if s.state.Terminated? then 0
    else if s.state.Terminating? then 1
    else if s.lcp.retries > 3 then (if s.lcp.retries == 255 && SendLcpRequest in s.send then 18 else 2)
    else 2 + 3 * (4 - s.lcp.retries)
         + if SendLcpRequest !in s.send then 3 else if SendDiscovery in s.send then 2 else 1
  }

  function Helpful(s: Session): Event {
    if s.state.Terminating? || (s.lcp.retries <= 3 && SendLcpRequest in s.send) then Tx else LcpTimeout
  }

  // Events that start the termination over, or undo it: another clearing, a
  // Terminate-Request of the peer, a premature Protocol-Reject, the start delay of LCP.
  predicate Stirs(s: Session, e: Event) {
    || e.Clear? || e.LcpStartDelay? || PrematureReject(s, e)
    || (e.Rx? && e.packet.Lcp? && e.packet.lcp.code == TERM_REQUEST)
  }

  lemma SettleTransmit(s: Session)
    requires Settling(s)
    ensures var t := Transmit(s);
      && Settling(t) && StepsLeft(t) <= StepsLeft(s)
      && (!s.state.Terminated? && Helpful(s) == Tx ==> StepsLeft(t) < StepsLeft(s))
  {
  }

  lemma SettleLocal(cfg: Config, s: Session, e: Event)
    requires Settling(s) && !e.Rx? && !Stirs(s, e) && !e.Restart?
    ensures var t := Step(cfg, s, e);
      && Settling(t) && StepsLeft(t) <= StepsLeft(s)
      && (!s.state.Terminated? && e == Helpful(s) ==> StepsLeft(t) < StepsLeft(s))
  {
    hide Transmit;
    SettleTransmit(s);
  }

  lemma SettleLcp(cfg: Config, s: Session, p: LcpPacket)
    requires Settling(s) && Decoded(Lcp(p)) && !Stirs(s, Rx(Lcp(p))) && !s.state.Terminated?
    ensures var t := RxLcp(cfg, s, p); Settling(t) && StepsLeft(t) <= StepsLeft(s)
  {
    hide Options.LcpReject, SuggestedAuth, Options.WellFormed, Truncated, Bytes32, NaksAuth, NegotiatedAuth;
  }

  lemma SettleOther(cfg: Config, s: Session, p: Packet)
    requires Settling(s) && Decoded(p) && !p.Lcp?
    ensures var t := Receive(cfg, s, p); Settling(t) && StepsLeft(t) <= StepsLeft(s)
  {
    hide Options.WellFormed;
  }

  // An event that does not stir keeps a settling session settling and never adds to
  // the steps left; the helpful one takes some away.
  lemma SettleStep(cfg: Config, s: Session, e: Event)
    requires Settling(s) && Proper(e) && !Stirs(s, e) && !e.Restart?
    ensures var t := Step(cfg, s, e);
      && Settling(t) && StepsLeft(t) <= StepsLeft(s)
      && (!s.state.Terminated? && e == Helpful(s) ==> StepsLeft(t) < StepsLeft(s))
  {
    hide RxLcp, Settling, StepsLeft, Stirs;
    if !e.Rx? {
      SettleLocal(cfg, s, e);
    } else if e.packet.Lcp? {
      if !s.state.Terminated? && !s.state.Idle? {
        SettleLcp(cfg, s, e.packet.lcp);
      }
    } else {
      SettleOther(cfg, s, e.packet);
    }
  }

  lemma StepsBound(s: Session)
    ensures StepsLeft(s) <= 18
    ensures Settling(s) ==> (StepsLeft(s) == 0 <==> s.state.Terminated?)
  {
  }

  // ---- The pending PADT

  predicate Marked(s: Session) {
    s.state.Terminating? ==> SendDiscovery in s.send
  }

  lemma MarkLocal(cfg: Config, s: Session, e: Event)
    requires PadtPending(s) && !e.Rx?
    ensures Marked(Step(cfg, s, e))
  {
  }

  lemma MarkLcp(cfg: Config, s: Session, p: LcpPacket)
    requires PadtPending(s) && Decoded(Lcp(p)) && !s.state.Terminated? && !s.state.Idle?
    ensures Marked(RxLcp(cfg, s, p))
  {
    hide Options.LcpReject, SuggestedAuth, Options.WellFormed, Truncated, Bytes32, NaksAuth, NegotiatedAuth;
  }

  lemma MarkOther(cfg: Config, s: Session, p: Packet)
    requires PadtPending(s) && Decoded(p) && !p.Lcp?
    ensures Marked(Receive(cfg, s, p))
  {
    hide Options.WellFormed, HostUniqMatches, Options.IpcpReject;
  }

  lemma PadtStep(cfg: Config, s: Session, e: Event)
    requires ValidConfig(cfg) && PadtPending(s) && Proper(e)
    ensures PadtPending(Step(cfg, s, e))
  {
    hide RxLcp, PhaseInv, Marked;
    StaysInTermination(cfg, s, e);
    if !e.Rx? {
      MarkLocal(cfg, s, e);
    } else if e.packet.Lcp? {
      if !s.state.Terminated? && !s.state.Idle? {
        MarkLcp(cfg, s, e.packet.lcp);
      }
    } else {
      MarkOther(cfg, s, e.packet);
    }
    MarkedMeans(Step(cfg, s, e));
    MarkedMeans(s);
  }

  lemma MarkedMeans(s: Session)
    ensures Marked(s) <==> (s.state.Terminating? ==> SendDiscovery in s.send)
  {
  }

  lemma PadtClear(s: Session)
    requires PadtPending(s)
    ensures PadtPending(ClearSession(s)) && Settling(ClearSession(s))
  {
  }

  lemma PadtNext(cfgs: seq<Config>, r: Rates, s: Sched, h: Happening, i: nat)
    requires Fits(cfgs, s) && AllValid(cfgs) && Allowed(cfgs, h) && s.teardown && i < |cfgs| && PadtPending(s.f.sessions[i])
    ensures PadtPending(Next(cfgs, r, s, h).f.sessions[i]) && Next(cfgs, r, s, h).teardown
  {
    hide Step, ClearSession, CountCleared, Launched, DrainLen, Missing, Counted, PadtPending, Resolved, Settling;
    match h
    case Job(_, _) => PadtClear(s.f.sessions[i]);
    case Happens(j, e) =>
      if j == i {
        PadtStep(cfgs[i], s.f.sessions[i], e);
      }
    case Request =>
  }

  lemma {:induction false} PadtRun(cfgs: seq<Config>, r: Rates, s: Sched, hs: seq<Happening>, i: nat)
    requires Fits(cfgs, s) && AllValid(cfgs) && AllAllowed(cfgs, hs) && s.teardown && i < |cfgs| && PadtPending(s.f.sessions[i])
    ensures PadtPending(History(cfgs, r, s, hs).f.sessions[i]) && History(cfgs, r, s, hs).teardown
  {
    hide Next, Allowed, PadtPending;
    if hs != [] {
      PadtRun(cfgs, r, s, hs[..|hs| - 1], i);
      PadtNext(cfgs, r, History(cfgs, r, s, hs[..|hs| - 1]), hs[|hs| - 1], i);
    }
  }

  // ---- All sessions

  function Total(ss: seq<Session>): nat {
    if ss == [] then 0 else StepsLeft(ss[0]) + Total(ss[1..])
  }

  lemma {:induction false} TotalUpdate(ss: seq<Session>, i: nat, t: Session)
    requires i < |ss|
    ensures Total(ss[i := t]) == Total(ss) - StepsLeft(ss[i]) + StepsLeft(t)
  {
    hide StepsLeft;
    if i == 0 {
      assert ss[0 := t][1..] == ss[1..];
    } else {
      TotalUpdate(ss[1..], i - 1, t);
      assert ss[i := t][1..] == ss[1..][i - 1 := t];
    }
  }

  lemma {:induction false} TotalBound(ss: seq<Session>)
    ensures Total(ss) <= 18 * |ss|
    ensures Total(ss) == 0 ==> forall i :: 0 <= i < |ss| ==> StepsLeft(ss[i]) == 0
  {
    hide StepsLeft;
    if ss != [] {
      StepsBound(ss[0]);
      TotalBound(ss[1..]);
      assert forall i :: 1 <= i < |ss| ==> ss[i] == ss[1..][i - 1];
    }
  }

  // All sessions were cleared and none is on the teardown queue any more.
  ghost predicate Settled(s: Sched) {
    && s.teardown && !s.request && s.drain == []
    && forall i :: 0 <= i < |s.f.sessions| ==> Settling(s.f.sessions[i])
  }

  predicate StirsIt(s: Sched, h: Happening)
    requires h.Happens? ==> h.index < |s.f.sessions|
  {
    h.Happens? && Stirs(s.f.sessions[h.index], h.event)
  }

  predicate Helps(s: Sched, h: Happening)
    requires h.Happens? ==> h.index < |s.f.sessions|
  {
    h.Happens? && !s.f.sessions[h.index].state.Terminated? && h.event == Helpful(s.f.sessions[h.index])
  }

  lemma SettledNext(cfgs: seq<Config>, r: Rates, s: Sched, h: Happening)
    requires Fits(cfgs, s) && Allowed(cfgs, h) && !h.Request? && Settled(s) && !StirsIt(s, h)
    ensures var t := Next(cfgs, r, s, h);
      Settled(t) && Total(t.f.sessions) + (if Helps(s, h) then 1 else 0) <= Total(s.f.sessions)
  {
    hide Step, ClearSession, CountCleared, Launched, Missing, Counted, Settling, Resolved, Total, StepsLeft, Stirs;
    match h
    case Job(_, _) =>
      ClearsNone(s.f);
      assert s.drain[..0] == [];
    case Happens(i, e) =>
      if !e.Restart? {
        SettleStep(cfgs[i], s.f.sessions[i], e);
        TotalUpdate(s.f.sessions, i, Step(cfgs[i], s.f.sessions[i], e));
      } else {
        RestartUnhelpful(s.f.sessions[i]);
      }
  }

  lemma RestartUnhelpful(s: Session)
    ensures Helpful(s) != Restart
  {
  }

  ghost predicate NoneStirs(cfgs: seq<Config>, r: Rates, s: Sched, hs: seq<Happening>)
    requires Fits(cfgs, s) && AllAllowed(cfgs, hs)
  {
    forall k :: 0 <= k < |hs| ==> !StirsAt(cfgs, r, s, hs, k)
  }

  ghost predicate StirsAt(cfgs: seq<Config>, r: Rates, s: Sched, hs: seq<Happening>, k: nat)
    requires Fits(cfgs, s) && AllAllowed(cfgs, hs) && k < |hs|
  {
    StirsIt(History(cfgs, r, s, hs[..k]), hs[k])
  }

  // How many of the happenings were helpful when they happened.
  ghost function HelpCount(cfgs: seq<Config>, r: Rates, s: Sched, hs: seq<Happening>): nat
    requires Fits(cfgs, s) && AllAllowed(cfgs, hs)
  {
    if hs == [] then 0
    else HelpCount(cfgs, r, s, hs[..|hs| - 1])
         + if Helps(History(cfgs, r, s, hs[..|hs| - 1]), hs[|hs| - 1]) then 1 else 0
  }

  lemma {:induction false} SettledRun(cfgs: seq<Config>, r: Rates, s: Sched, hs: seq<Happening>)
    requires Fits(cfgs, s) && AllAllowed(cfgs, hs) && NoRequest(hs) && Settled(s) && NoneStirs(cfgs, r, s, hs)
    ensures var t := History(cfgs, r, s, hs);
      Settled(t) && Total(t.f.sessions) + HelpCount(cfgs, r, s, hs) <= Total(s.f.sessions)
  {
    hide Next, Allowed, Settled, StirsIt, Helps, Total;
    if hs != [] {
      var n := |hs| - 1;
      forall k | 0 <= k < n ensures !StirsAt(cfgs, r, s, hs[..n], k) {
        assert hs[..n][..k] == hs[..k];
        assert !StirsAt(cfgs, r, s, hs, k);
      }
      SettledRun(cfgs, r, s, hs[..n]);
      assert !StirsAt(cfgs, r, s, hs, n);
      SettledNext(cfgs, r, History(cfgs, r, s, hs[..n]), hs[n]);
    }
  }

  // Whatever happens that does not stir a session, there is never much left to do: a
  // run has at most eighteen helpful events per session.
  lemma FewHelpfulEvents(cfgs: seq<Config>, r: Rates, s: Sched, hs: seq<Happening>)
    requires Fits(cfgs, s) && AllAllowed(cfgs, hs) && NoRequest(hs) && Settled(s) && NoneStirs(cfgs, r, s, hs)
    ensures HelpCount(cfgs, r, s, hs) <= 18 * |cfgs|
  {
    hide Next, Allowed, Settled, Total, HelpCount, NoneStirs;
    SettledRun(cfgs, r, s, hs);
    TotalBound(s.f.sessions);
    FitsRange(cfgs, s);
  }

  lemma NoLaunchInTeardown(cfgs: seq<Config>, r: Rates, s: Sched, hs: seq<Happening>)
    requires Fits(cfgs, s) && AllAllowed(cfgs, hs) && s.teardown
    ensures NoCountedLaunch(cfgs, r, s, hs)
  {
    hide Next, Allowed, Fits;
    forall k | 0 <= k < |hs| ensures !CountedLaunchAt(cfgs, r, s, hs, k) {
      TeardownLasts(cfgs, r, s, hs, k);
      NothingLaunched(cfgs, r, History(cfgs, r, s, hs[..k]), hs[k]);
    }
  }

  lemma {:induction false} TeardownLasts(cfgs: seq<Config>, r: Rates, s: Sched, hs: seq<Happening>, k: nat)
    requires Fits(cfgs, s) && AllAllowed(cfgs, hs) && s.teardown && k <= |hs|
    ensures History(cfgs, r, s, hs[..k]).teardown
  {
    hide Next, Fits, Allowed;
    if k == 0 {
      assert hs[..0] == [];
    } else {
      TeardownLasts(cfgs, r, s, hs, k - 1);
      HistoryStep(cfgs, r, s, hs, k - 1);
      TeardownNext(cfgs, r, History(cfgs, r, s, hs[..k - 1]), hs[k - 1]);
    }
  }

  lemma TeardownNext(cfgs: seq<Config>, r: Rates, s: Sched, h: Happening)
    requires Fits(cfgs, s) && Allowed(cfgs, h) && s.teardown
    ensures Next(cfgs, r, s, h).teardown
  {
    hide Tick, Missing, Cleared, CountCleared, DrainLen, Launched, Resolved;
  }

  // From the tick that serves a request: once every session was cleared, all of them
  // are settling.
  lemma TeardownSettles(cfgs: seq<Config>, r: Rates, s: Sched, hs: seq<Happening>)
    requires Fits(cfgs, s) && AllValid(cfgs) && AllAllowed(cfgs, hs) && NoRequest(hs)
    requires forall i :: 0 <= i < |s.f.sessions| ==> PadtPending(s.f.sessions[i])
    requires s.teardown && s.request && hs != [] && hs[0].Job? && r.stop * Jobs(hs[1..]) >= |cfgs|
    requires AllAllowed(cfgs, hs[1..]) && Fits(cfgs, Next(cfgs, r, s, hs[0]))
    requires NeverRevives(cfgs, r, Next(cfgs, r, s, hs[0]), hs[1..])
    ensures Settled(History(cfgs, r, Next(cfgs, r, s, hs[0]), hs[1..]))
  {
    hide Next, Allowed, Takes, PhaseInv, InTermination, Revives, Log, History, NeverRevives;
    var t := Next(cfgs, r, s, hs[0]);
    RequestQueuesAll(cfgs, r, s, hs[0]);
    AllClearedOnce(cfgs, r, s, hs);
    TeardownTerminatesAll(cfgs, r, s, hs);
    Drains(cfgs, r, t, hs[1..]);
    forall i | 0 <= i < |cfgs| ensures Settling(History(cfgs, r, t, hs[1..]).f.sessions[i]) {
      PadtRun(cfgs, r, t, hs[1..], i);
    }
  }
}
