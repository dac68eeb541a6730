/**
 How a teardown ends. When every session was cleared, seven rounds in which each of
 them gets a timeout of its LCP timer and a transmission lead to the end of the event
 loop.
 */
module Rounds {
  import opened Types
  import opened ClientSpec
  import opened ClientRuns
  import opened Census
  import opened Scheduler
  import opened SchedulerRuns
  import opened SchedulerCounts
  import opened Shutdown

  // ---- One session

  // The rounds a session still needs, if every round brings it a timeout of the LCP
  // timer and later a transmission.
  function RoundsLeft(s: Session): nat {
    if s.state.Terminated? then 0
    else if s.state.Terminating? then 1
    else if s.lcp.retries > 3 then (if s.lcp.retries == 255 && SendLcpRequest in s.send then 7 else 1)
    else 5 - s.lcp.retries + if SendDiscovery in s.send then 1 else 0
  }

  // The next transmission brings the session forward.
  predicate Armed(s: Session) {
    s.state.Terminating? || (s.state.PppTerminating? && s.lcp.retries <= 3 && SendLcpRequest in s.send)
  }

  predicate Forward(s: Session, t: Session) {
    RoundsLeft(t) <= RoundsLeft(s) && (Armed(s) ==> RoundsLeft(t) < RoundsLeft(s) || Armed(t))
  }

  lemma RoundTransmit(s: Session)
    requires Settling(s)
    ensures Forward(s, Transmit(s)) && (Armed(s) ==> RoundsLeft(Transmit(s)) < RoundsLeft(s))
  {
  }

  lemma RoundLocal(cfg: Config, s: Session, e: Event)
    requires Settling(s) && !e.Rx? && !Stirs(s, e) && !e.Restart?
    ensures var t := Step(cfg, s, e);
      && Forward(s, t)
      && (e.Tx? && Armed(s) ==> RoundsLeft(t) < RoundsLeft(s))
      && (e.LcpTimeout? && !s.state.Terminated? ==> RoundsLeft(t) < RoundsLeft(s) || Armed(t))
  {
    hide Transmit;
    RoundTransmit(s);
  }

  lemma RoundLcp(cfg: Config, s: Session, p: LcpPacket)
    requires Settling(s) && Decoded(Lcp(p)) && !Stirs(s, Rx(Lcp(p))) && !s.state.Terminated?
    ensures Forward(s, RxLcp(cfg, s, p))
  {
    hide Options.LcpReject, SuggestedAuth, Options.WellFormed, Truncated, Bytes32, NaksAuth, NegotiatedAuth;
  }

  lemma RoundOther(cfg: Config, s: Session, p: Packet)
    requires Settling(s) && Decoded(p) && !p.Lcp?
    ensures Forward(s, Receive(cfg, s, p))
  {
    hide Options.WellFormed, Options.IpcpReject, HostUniqMatches;
  }

  lemma RoundStep(cfg: Config, s: Session, e: Event)
    requires Settling(s) && Proper(e) && !Stirs(s, e) && !e.Restart?
    ensures var t := Step(cfg, s, e);
      && Forward(s, t)
      && (e.Tx? && Armed(s) ==> RoundsLeft(t) < RoundsLeft(s))
      && (e.LcpTimeout? && !s.state.Terminated? ==> RoundsLeft(t) < RoundsLeft(s) || Armed(t))
  {
    hide RxLcp, Settling, RoundsLeft, Stirs, Armed, Forward;
    StillForward(s);
    if !e.Rx? {
      RoundLocal(cfg, s, e);
    } else if e.packet.Lcp? {
      if !s.state.Terminated? && !s.state.Idle? {
        RoundLcp(cfg, s, e.packet.lcp);
      }
    } else {
      RoundOther(cfg, s, e.packet);
    }
  }

  lemma StillForward(s: Session)
    ensures Forward(s, s)
  {
  }

  lemma RoundsBound(s: Session)
    ensures RoundsLeft(s) <= 7
    ensures Settling(s) ==> (RoundsLeft(s) == 0 <==> s.state.Terminated?)
  {
  }

  // ---- All sessions

  // How far a round has come for one session: before the timeout, between timeout and
  // transmission, after both.
  datatype Stage = Waits | Asked | Done

  predicate Reached(g: Stage, start: nat, s: Session) {
    match g
    case Waits => RoundsLeft(s) <= start
    case Asked => RoundsLeft(s) < start || RoundsLeft(s) == 0 || (Armed(s) && RoundsLeft(s) <= start)
    case Done => RoundsLeft(s) < start || RoundsLeft(s) == 0
  }

  function StageAt(k: nat, a: nat, b: nat): Stage {
    if k <= a then Waits else if k <= b then Asked else Done
  }

  lemma ReachedNext(cfgs: seq<Config>, r: Rates, s: Sched, h: Happening, i: nat, k: nat, a: nat, b: nat, start: nat)
    requires Fits(cfgs, s) && Allowed(cfgs, h) && !h.Request? && Settled(s) && !StirsIt(s, h) && i < |cfgs| && a < b
    requires k == a ==> h == Happens(i, LcpTimeout)
    requires k == b ==> h == Happens(i, Tx)
    requires Reached(StageAt(k, a, b), start, s.f.sessions[i])
    ensures Reached(StageAt(k + 1, a, b), start, Next(cfgs, r, s, h).f.sessions[i])
  {
    hide Step, ClearSession, CountCleared, Launched, Missing, Counted, Settling, Resolved, Stirs, Armed, RoundsLeft;
    var u := s.f.sessions[i];
    RoundsBound(u);
    match h
    case Job(_, _) =>
      ClearsNone(s.f);
      assert s.drain[..0] == [];
    case Happens(j, e) =>
      if j == i && !e.Restart? {
        RoundStep(cfgs[i], u, e);
      }
  }

  lemma NoneStirsPrefix(cfgs: seq<Config>, r: Rates, s: Sched, hs: seq<Happening>, n: nat)
    requires Fits(cfgs, s) && AllAllowed(cfgs, hs) && n <= |hs| && NoneStirs(cfgs, r, s, hs)
    ensures NoneStirs(cfgs, r, s, hs[..n])
  {
    hide History, StirsIt, Fits, Allowed;
    forall k | 0 <= k < n ensures !StirsAt(cfgs, r, s, hs[..n], k) {
      assert hs[..n][..k] == hs[..k];
      assert !StirsAt(cfgs, r, s, hs, k);
    }
  }

  lemma {:induction false} ReachedAt(cfgs: seq<Config>, r: Rates, s: Sched, hs: seq<Happening>, i: nat, a: nat, b: nat, k: nat)
    requires Fits(cfgs, s) && AllAllowed(cfgs, hs) && NoRequest(hs) && Settled(s) && NoneStirs(cfgs, r, s, hs)
    requires i < |cfgs| && a < b < |hs| && hs[a] == Happens(i, LcpTimeout) && hs[b] == Happens(i, Tx) && k <= |hs|
    ensures Reached(StageAt(k, a, b), RoundsLeft(s.f.sessions[i]), History(cfgs, r, s, hs[..k]).f.sessions[i])
  {
    hide Next, Allowed, Settled, StirsIt, NoneStirs, RoundsLeft, Armed, Reached, StageAt;
    if k == 0 {
      assert hs[..0] == [];
      ReachedStart(s.f.sessions[i], a, b);
    } else {
      ReachedAt(cfgs, r, s, hs, i, a, b, k - 1);
      NoneStirsPrefix(cfgs, r, s, hs, k - 1);
      SettledRun(cfgs, r, s, hs[..k - 1]);
      HistoryStep(cfgs, r, s, hs, k - 1);
      NotStirred(cfgs, r, s, hs, k - 1);
      ReachedNext(cfgs, r, History(cfgs, r, s, hs[..k - 1]), hs[k - 1], i, k - 1, a, b, RoundsLeft(s.f.sessions[i]));
    }
  }

  lemma ReachedStart(s: Session, a: nat, b: nat)
    ensures Reached(StageAt(0, a, b), RoundsLeft(s), s)
  {
  }

  lemma NotStirred(cfgs: seq<Config>, r: Rates, s: Sched, hs: seq<Happening>, k: nat)
    requires Fits(cfgs, s) && AllAllowed(cfgs, hs) && k < |hs| && NoneStirs(cfgs, r, s, hs)
    ensures !StirsIt(History(cfgs, r, s, hs[..k]), hs[k])
  {
    hide History, StirsIt, Fits, Allowed;
    assert !StirsAt(cfgs, r, s, hs, k);
  }

  // The round brings the session a timeout and later a transmission.
  ghost predicate FairTo(hs: seq<Happening>, i: nat) {
    exists a, b :: 0 <= a < b < |hs| && hs[a] == Happens(i, LcpTimeout) && hs[b] == Happens(i, Tx)
  }

  ghost predicate Fair(cfgs: seq<Config>, hs: seq<Happening>) {
    forall i :: 0 <= i < |cfgs| ==> FairTo(hs, i)
  }

  // A fair round brings every session forward that is not terminated.
  lemma RoundLowers(cfgs: seq<Config>, r: Rates, s: Sched, hs: seq<Happening>, i: nat)
    requires Fits(cfgs, s) && AllAllowed(cfgs, hs) && NoRequest(hs) && Settled(s) && NoneStirs(cfgs, r, s, hs)
    requires i < |cfgs| && FairTo(hs, i)
    ensures var n := RoundsLeft(History(cfgs, r, s, hs).f.sessions[i]);
      n < RoundsLeft(s.f.sessions[i]) || n == 0
  {
    hide Next, Allowed, Settled, NoneStirs, RoundsLeft, Armed;
    var a, b :| 0 <= a < b < |hs| && hs[a] == Happens(i, LcpTimeout) && hs[b] == Happens(i, Tx);
    ReachedAt(cfgs, r, s, hs, i, a, b, |hs|);
    assert hs[..|hs|] == hs;
  }

  // ---- Runs made of rounds

  ghost function Flatten(rs: seq<seq<Happening>>): seq<Happening> {
    if rs == [] then [] else Flatten(rs[..|rs| - 1]) + rs[|rs| - 1]
  }

  lemma {:induction false} HistoryConcat(cfgs: seq<Config>, r: Rates, s: Sched, a: seq<Happening>, b: seq<Happening>)
    requires Fits(cfgs, s) && AllAllowed(cfgs, a) && AllAllowed(cfgs, b)
    ensures AllAllowed(cfgs, a + b)
    ensures History(cfgs, r, s, a + b) == History(cfgs, r, History(cfgs, r, s, a), b)
    decreases |b|
  {
    hide Next, Fits, Allowed;
    if b == [] {
      assert a + b == a;
    } else {
      var n := |b| - 1;
      HistoryConcat(cfgs, r, s, a, b[..n]);
      assert (a + b)[..|a + b| - 1] == a + b[..n] && (a + b)[|a + b| - 1] == b[n];
    }
  }

  lemma NoneStirsConcat(cfgs: seq<Config>, r: Rates, s: Sched, a: seq<Happening>, b: seq<Happening>)
    requires Fits(cfgs, s) && AllAllowed(cfgs, a) && AllAllowed(cfgs, b) && AllAllowed(cfgs, a + b)
    ensures NoneStirs(cfgs, r, s, a + b) <==> NoneStirs(cfgs, r, s, a) && NoneStirs(cfgs, r, History(cfgs, r, s, a), b)
  {
    hide History, StirsIt, Fits, Allowed;
    var t := History(cfgs, r, s, a);
    forall k | 0 <= k < |a| ensures StirsAt(cfgs, r, s, a + b, k) == StirsAt(cfgs, r, s, a, k) {
      assert (a + b)[..k] == a[..k] && (a + b)[k] == a[k];
    }
    forall k | 0 <= k < |b| ensures StirsAt(cfgs, r, s, a + b, |a| + k) == StirsAt(cfgs, r, t, b, k) {
      assert (a + b)[..|a| + k] == a + b[..k] && (a + b)[|a| + k] == b[k];
      HistoryConcat(cfgs, r, s, a, b[..k]);
    }
    if NoneStirs(cfgs, r, s, a + b) {
      forall k | 0 <= k < |a| ensures !StirsAt(cfgs, r, s, a, k) {
        assert !StirsAt(cfgs, r, s, a + b, k);
      }
      forall k | 0 <= k < |b| ensures !StirsAt(cfgs, r, t, b, k) {
        assert !StirsAt(cfgs, r, s, a + b, |a| + k);
      }
    }
    if NoneStirs(cfgs, r, s, a) && NoneStirs(cfgs, r, t, b) {
      forall k | 0 <= k < |a + b| ensures !StirsAt(cfgs, r, s, a + b, k) {
        if k >= |a| {
          var j := k - |a|;
          assert !StirsAt(cfgs, r, t, b, j) && k == |a| + j;
        }
      }
    }
  }

  // A run of fair rounds.
  ghost predicate FairRounds(cfgs: seq<Config>, rs: seq<seq<Happening>>) {
    forall n :: 0 <= n < |rs| ==> AllAllowed(cfgs, rs[n]) && NoRequest(rs[n]) && Fair(cfgs, rs[n])
  }

  lemma {:induction false} FlattenAllowed(cfgs: seq<Config>, rs: seq<seq<Happening>>)
    requires FairRounds(cfgs, rs)
    ensures AllAllowed(cfgs, Flatten(rs)) && NoRequest(Flatten(rs))
  {
    hide Allowed, Fair;
    if rs != [] {
      FlattenAllowed(cfgs, rs[..|rs| - 1]);
      assert AllAllowed(cfgs, rs[|rs| - 1]) && NoRequest(rs[|rs| - 1]);
    }
  }

  lemma {:induction false} RoundsLower(cfgs: seq<Config>, r: Rates, s: Sched, rs: seq<seq<Happening>>, i: nat)
    requires Fits(cfgs, s) && Settled(s) && FairRounds(cfgs, rs) && i < |cfgs|
    requires AllAllowed(cfgs, Flatten(rs)) && NoneStirs(cfgs, r, s, Flatten(rs))
    ensures var t := History(cfgs, r, s, Flatten(rs));
      Settled(t) && (RoundsLeft(t.f.sessions[i]) + |rs| <= RoundsLeft(s.f.sessions[i]) || RoundsLeft(t.f.sessions[i]) == 0)
  {
    hide Next, Allowed, Settled, NoneStirs, RoundsLeft, Fair;
    if rs != [] {
      var n := |rs| - 1;
      FlattenAllowed(cfgs, rs[..n]);
      assert AllAllowed(cfgs, rs[n]) && NoRequest(rs[n]) && Fair(cfgs, rs[n]);
      NoneStirsConcat(cfgs, r, s, Flatten(rs[..n]), rs[n]);
      RoundsLower(cfgs, r, s, rs[..n], i);
      var t := History(cfgs, r, s, Flatten(rs[..n]));
      FairMeans(cfgs, rs[n], i);
      RoundLowers(cfgs, r, t, rs[n], i);
      SettledRun(cfgs, r, t, rs[n]);
      HistoryConcat(cfgs, r, s, Flatten(rs[..n]), rs[n]);
    }
  }

  lemma FairMeans(cfgs: seq<Config>, hs: seq<Happening>, i: nat)
    requires Fair(cfgs, hs) && i < |cfgs|
    ensures FairTo(hs, i)
  {
  }

  // Once all sessions are settling, seven rounds end the teardown: if every round
  // brings every session a timeout and later a transmission, then, with anything else
  // in between that does not stir a session, all sessions are terminated and the exit
  // test of the event loop holds.
  lemma LoopEnds(cfgs: seq<Config>, r: Rates, s: Sched, rs: seq<seq<Happening>>)
    requires Fits(cfgs, s) && Settled(s) && UpAndGone(s.f) && FairRounds(cfgs, rs) && |rs| >= 7
    requires AllAllowed(cfgs, Flatten(rs)) && NoneStirs(cfgs, r, s, Flatten(rs))
    ensures var t := History(cfgs, r, s, Flatten(rs)).f;
      && (forall i :: 0 <= i < |cfgs| ==> t.sessions[i].state.Terminated?)
      && t.n.terminated >= |cfgs|
  {
    hide Next, Allowed, Tally, RoundsLeft, Settling, NoneStirs, FairRounds;
    var t := History(cfgs, r, s, Flatten(rs));
    forall i | 0 <= i < |cfgs| ensures t.f.sessions[i].state.Terminated? {
      RoundsLower(cfgs, r, s, rs, i);
      RoundsBound(s.f.sessions[i]);
      RoundsBound(t.f.sessions[i]);
    }
    NoLaunchInTeardown(cfgs, r, s, Flatten(rs));
    LoopExitsIff(cfgs, r, s, Flatten(rs));
  }

  // ---- Why no session may be stirred

  // A round in which the peer asks for termination too, between timeout and transmission.
  ghost function StirredRounds(cfg: Config, s: Session, id: Byte, n: nat): Session {
    if n == 0 then s
    else
      var t := Step(cfg, StirredRounds(cfg, s, id, n - 1), LcpTimeout);
      Step(cfg, Step(cfg, t, Rx(Lcp(LcpPacket(TERM_REQUEST, id)))), Tx)
  }

  // A Terminate-Request of the peer discards the own one that is pending. One per round
  // keeps the session in termination for ever.
  lemma {:induction false} StirredNeverEnds(cfg: Config, s: Session, id: Byte, n: nat)
    requires s.state.PppTerminating? && s.lcp.retries <= 3 && s.send == {}
    ensures var t := StirredRounds(cfg, s, id, n);
      t.state.PppTerminating? && t.lcp.retries == s.lcp.retries && t.send == {}
  {
    hide Step;
    if n > 0 {
      StirredNeverEnds(cfg, s, id, n - 1);
      StirredRound(cfg, StirredRounds(cfg, s, id, n - 1), id);
    }
  }

  lemma StirredRound(cfg: Config, s: Session, id: Byte)
    requires s.state.PppTerminating? && s.lcp.retries <= 3 && s.send == {}
    ensures var u := Step(cfg, Step(cfg, Step(cfg, s, LcpTimeout), Rx(Lcp(LcpPacket(TERM_REQUEST, id)))), Tx);
      u.state.PppTerminating? && u.lcp.retries == s.lcp.retries && u.send == {}
  {
    var t := Step(cfg, s, LcpTimeout);
    assert t.state.PppTerminating?;
  }

  // ---- Such rounds exist

  function RoundFor(n: nat): (hs: seq<Happening>) {
    if n == 0 then [] else RoundFor(n - 1) + [Happens(n - 1, LcpTimeout), Happens(n - 1, Tx)]
  }

  lemma {:induction false} RoundForFair(n: nat, i: nat)
    requires i < n
    ensures FairTo(RoundFor(n), i)
  {
    var hs := RoundFor(n);
    var m := |RoundFor(n - 1)|;
    if i == n - 1 {
      assert hs[m] == Happens(i, LcpTimeout) && hs[m + 1] == Happens(i, Tx);
    } else {
      RoundForFair(n - 1, i);
      var a, b :| 0 <= a < b < m && RoundFor(n - 1)[a] == Happens(i, LcpTimeout) && RoundFor(n - 1)[b] == Happens(i, Tx);
      assert hs[a] == Happens(i, LcpTimeout) && hs[b] == Happens(i, Tx);
    }
  }

  // Nothing but timeouts and transmissions.
  ghost predicate Plain(n: nat, hs: seq<Happening>) {
    forall k :: 0 <= k < |hs| ==> hs[k].Happens? && hs[k].index < n && (hs[k].event.LcpTimeout? || hs[k].event.Tx?)
  }

  lemma {:induction false} RoundForPlain(n: nat, m: nat)
    requires n <= m
    ensures Plain(m, RoundFor(n))
  {
    if n > 0 {
      RoundForPlain(n - 1, m);
    }
  }

  lemma {:induction false} FlattenPlain(n: nat, rs: seq<seq<Happening>>)
    requires forall k :: 0 <= k < |rs| ==> Plain(n, rs[k])
    ensures Plain(n, Flatten(rs))
  {
    if rs != [] {
      FlattenPlain(n, rs[..|rs| - 1]);
    }
  }

  lemma PlainNeverStirs(cfgs: seq<Config>, r: Rates, s: Sched, hs: seq<Happening>)
    requires Fits(cfgs, s) && Plain(|cfgs|, hs)
    ensures AllAllowed(cfgs, hs) && NoRequest(hs) && NoneStirs(cfgs, r, s, hs)
  {
    hide History, Fits;
    FitsRange(cfgs, s);
  }

  // ---- From the first start to the end of the event loop

  // What holds of the sessions, the queue and the counters in every run without a
  // reconnect of a queued session and without a start of a counted one.
  ghost predicate Orderly(s: Sched) {
    && QueueInv(s) && UpAndGone(s.f)
    && forall i :: 0 <= i < |s.f.sessions| ==> PadtPending(s.f.sessions[i])
  }

  lemma BeginsOrderly(cfgs: seq<Config>, ss: seq<Session>, autostart: bool)
    requires |cfgs| == |ss|
    requires forall i :: 0 <= i < |ss| ==> Initial(ss[i].(state := if autostart then Idle else Terminated))
    ensures var s := Begin(ss, autostart); Fits(cfgs, s) && Orderly(s)
  {
    hide Initial, PhaseInv, Tally, Missing;
    BeginsExact(cfgs, ss, autostart);
  }

  lemma PadtNextAny(cfgs: seq<Config>, r: Rates, s: Sched, h: Happening, i: nat)
    requires Fits(cfgs, s) && AllValid(cfgs) && Allowed(cfgs, h) && QueueInv(s) && i < |cfgs| && PadtPending(s.f.sessions[i])
    ensures PadtPending(Next(cfgs, r, s, h).f.sessions[i])
  {
    hide Step, ClearSession, CountCleared, DrainLen, Missing, Counted, PadtPending, Resolved, Settling, StartCount, Launch, Waiting;
    match h
    case Job(_, _) =>
      PadtClear(s.f.sessions[i]);
      PadtLaunch(s.f.sessions[i]);
    case Happens(j, e) =>
      if j == i {
        PadtStep(cfgs[i], s.f.sessions[i], e);
      }
    case Request =>
  }

  lemma PadtLaunch(s: Session)
    ensures Waiting(s) ==> PadtPending(Launch(s))
  {
  }

  lemma {:induction false} PadtUpTo(cfgs: seq<Config>, r: Rates, s: Sched, hs: seq<Happening>, i: nat, k: nat)
    requires Fits(cfgs, s) && AllValid(cfgs) && AllAllowed(cfgs, hs) && QueueInv(s) && NeverRequeues(cfgs, r, s, hs)
    requires i < |cfgs| && PadtPending(s.f.sessions[i]) && k <= |hs|
    ensures PadtPending(History(cfgs, r, s, hs[..k]).f.sessions[i])
  {
    hide Next, Allowed, QueueInv, PadtPending, NeverRequeues;
    if k == 0 {
      assert hs[..0] == [];
    } else {
      PadtUpTo(cfgs, r, s, hs, i, k - 1);
      QueueUpTo(cfgs, r, s, hs, k - 1);
      HistoryStep(cfgs, r, s, hs, k - 1);
      PadtNextAny(cfgs, r, History(cfgs, r, s, hs[..k - 1]), hs[k - 1], i);
    }
  }

  lemma StaysOrderly(cfgs: seq<Config>, r: Rates, s: Sched, hs: seq<Happening>)
    requires Fits(cfgs, s) && AllValid(cfgs) && AllAllowed(cfgs, hs) && Orderly(s)
    requires NeverRequeues(cfgs, r, s, hs) && NoCountedLaunch(cfgs, r, s, hs)
    ensures Orderly(History(cfgs, r, s, hs))
  {
    hide Next, Allowed, QueueInv, PadtPending, NeverRequeues, NoCountedLaunch, UpAndGone, History;
    assert hs[..|hs|] == hs;
    QueueUpTo(cfgs, r, s, hs, |hs|);
    ExactUpTo(cfgs, r, s, hs, |hs|);
    forall i | 0 <= i < |cfgs| ensures PadtPending(History(cfgs, r, s, hs).f.sessions[i]) {
      PadtUpTo(cfgs, r, s, hs, i, |hs|);
    }
  }

  // The state in which a request of an orderly fleet is served.
  ghost function Requested(cfgs: seq<Config>, r: Rates, s: Sched, job: Happening): (t: Sched)
    requires Fits(cfgs, s) && job.Job?
    ensures Fits(cfgs, t)
  {
    NextFits(cfgs, r, s, Request);
    NextFits(cfgs, r, Next(cfgs, r, s, Request), job);
    Next(cfgs, r, Next(cfgs, r, s, Request), job)
  }

  // The drain ticks of an orderly fleet settle all sessions.
  lemma DrainSettles(cfgs: seq<Config>, r: Rates, s: Sched, job: Happening, drain: seq<Happening>)
    requires Fits(cfgs, s) && AllValid(cfgs) && Orderly(s) && job.Job? && AllAllowed(cfgs, drain) && NoRequest(drain)
    requires r.stop * Jobs(drain) >= |cfgs| && NeverRevives(cfgs, r, Requested(cfgs, r, s, job), drain)
    ensures var t := History(cfgs, r, Requested(cfgs, r, s, job), drain);
      Settled(t) && UpAndGone(t.f)
  {
    hide Allowed, Settled, UpAndGone, NeverRevives, History, PadtPending, QueueInv, Jobs, CtrlTick, NoCountedLaunch;
    AllowedJob(cfgs, job);
    var t := Next(cfgs, r, s, Request);
    var hs := [job] + drain;
    assert hs[0] == job && hs[1..] == drain;
    RequestQueuesAll(cfgs, r, t, job);
    TeardownSettles(cfgs, r, t, hs);
    var u := Requested(cfgs, r, s, job);
    NoLaunchInTeardown(cfgs, r, u, drain);
    ExactUpTo(cfgs, r, u, drain, |drain|);
    assert drain[..|drain|] == drain;
  }

  lemma AllowedJob(cfgs: seq<Config>, job: Happening)
    requires job.Job?
    ensures Allowed(cfgs, job) && Allowed(cfgs, Request)
  {
  }

  // The teardown as one run: whatever an orderly fleet did before, a request and the
  // tick that serves it, drain ticks for all sessions, and seven fair rounds leave every
  // session terminated, and the event loop exits.
  lemma TeardownCompletes(cfgs: seq<Config>, r: Rates, s: Sched,
                          before: seq<Happening>, job: Happening, drain: seq<Happening>, rs: seq<seq<Happening>>)
    requires Fits(cfgs, s) && AllValid(cfgs) && Orderly(s) && AllAllowed(cfgs, before) && job.Job?
    requires NeverRequeues(cfgs, r, s, before) && NoCountedLaunch(cfgs, r, s, before)
    requires AllAllowed(cfgs, drain) && NoRequest(drain) && r.stop * Jobs(drain) >= |cfgs|
    requires FairRounds(cfgs, rs) && |rs| >= 7 && AllAllowed(cfgs, Flatten(rs))
    requires var t := Requested(cfgs, r, History(cfgs, r, s, before), job);
      NeverRevives(cfgs, r, t, drain) && NoneStirs(cfgs, r, History(cfgs, r, t, drain), Flatten(rs))
    ensures var hs := before + [Request, job] + drain + Flatten(rs);
      && AllAllowed(cfgs, hs)
      && var t := History(cfgs, r, s, hs).f;
         (forall i :: 0 <= i < |cfgs| ==> t.sessions[i].state.Terminated?) && t.n.terminated >= |cfgs|
  {
    hide Allowed, Settled, UpAndGone, NeverRevives, NoneStirs, NeverRequeues, NoCountedLaunch, Next, Orderly, FairRounds, Jobs;
    var u := History(cfgs, r, s, before);
    StaysOrderly(cfgs, r, s, before);
    DrainSettles(cfgs, r, u, job, drain);
    var t := Requested(cfgs, r, u, job);
    LoopEnds(cfgs, r, History(cfgs, r, t, drain), rs);
    RequestHistory(cfgs, r, u, job);
    HistoryConcat(cfgs, r, s, before, [Request, job]);
    HistoryConcat(cfgs, r, s, before + [Request, job], drain);
    HistoryConcat(cfgs, r, s, before + [Request, job] + drain, Flatten(rs));
  }

  lemma RequestHistory(cfgs: seq<Config>, r: Rates, s: Sched, job: Happening)
    requires Fits(cfgs, s) && job.Job?
    ensures AllAllowed(cfgs, [Request, job])
    ensures History(cfgs, r, s, [Request, job]) == Requested(cfgs, r, s, job)
  {
    hide Next, Fits;
    var hs := [Request, job];
    assert hs[..1] == [Request] && [Request][..0] == [];
    assert History(cfgs, r, s, [Request]) == Next(cfgs, r, s, Request);
  }

  // With a positive stop rate such a run exists from every request on.
  lemma TeardownCanComplete(cfgs: seq<Config>, r: Rates, s: Sched, job: Happening)
    returns (drain: seq<Happening>, rs: seq<seq<Happening>>)
    requires Fits(cfgs, s) && AllValid(cfgs) && Orderly(s) && job.Job? && r.stop > 0
    ensures AllAllowed(cfgs, drain) && NoRequest(drain) && r.stop * Jobs(drain) >= |cfgs|
    ensures FairRounds(cfgs, rs) && |rs| == 7 && AllAllowed(cfgs, Flatten(rs))
    ensures var t := Requested(cfgs, r, s, job);
      NeverRevives(cfgs, r, t, drain) && NoneStirs(cfgs, r, History(cfgs, r, t, drain), Flatten(rs))
  {
    hide Fits, Orderly, History, Next, NoneStirs;
    drain := Ticks(job, |cfgs|);
    TicksCount(job, |cfgs|);
    assert r.stop * |cfgs| >= |cfgs|;
    var t := Requested(cfgs, r, s, job);
    FitsRange(cfgs, t);
    var round := RoundFor(|cfgs|);
    RoundForPlain(|cfgs|, |cfgs|);
    rs := seq(7, _ => round);
    forall i | 0 <= i < |cfgs| ensures FairTo(round, i) {
      RoundForFair(|cfgs|, i);
    }
    FlattenPlain(|cfgs|, rs);
    PlainNeverStirs(cfgs, r, History(cfgs, r, t, drain), Flatten(rs));
  }

  function Ticks(job: Happening, n: nat): seq<Happening> {
    seq(n, _ => job)
  }

  lemma {:induction false} TicksCount(job: Happening, n: nat)
    requires job.Job?
    ensures Jobs(Ticks(job, n)) == n
  {
    if n > 0 {
      TicksCount(job, n - 1);
      assert Ticks(job, n)[..n - 1] == Ticks(job, n - 1);
    }
  }
}
