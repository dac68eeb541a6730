/**
 What the retry timers are for: a peer that stays silent is given up after a
 bounded number of attempts. Every timer of the client drives the same loop. It
 asks for another transmission until the attempts exceed the configured retries,
 and the transmit job counts the attempts, in one byte.
 */
module Retries {
  import opened Types
  import opened ClientSpec
  import opened ClientRuns

  datatype Loop = LinkLoop | PapLoop | ChapLoop | IpcpLoop | Ip6cpLoop | EchoLoop | PadrLoop

  function TimerOf(l: Loop): Event {
    match l
    case LinkLoop => LcpTimeout
    case PapLoop => PapTimeout
    case ChapLoop => ChapTimeout
    case IpcpLoop => IpcpTimeout
    case Ip6cpLoop => Ip6cpTimeout
    case EchoLoop => LcpEcho
    case PadrLoop => PadrTimeout
  }

  function BitOf(l: Loop): SendBit {
    match l
    case LinkLoop => SendLcpRequest
    case PapLoop => SendPap
    case ChapLoop => SendChap
    case IpcpLoop => SendIpcpRequest
    case Ip6cpLoop => SendIp6cpRequest
    case EchoLoop => SendLcpRequest
    case PadrLoop => SendDiscovery
  }

  function Limit(cfg: Config, l: Loop): nat {
    match l
    case LinkLoop => cfg.lcpRetry
    case PapLoop => cfg.authRetry
    case ChapLoop => cfg.authRetry
    case IpcpLoop => cfg.ipcpRetry
    case Ip6cpLoop => cfg.ip6cpRetry
    case EchoLoop => cfg.keepaliveRetry
    case PadrLoop => cfg.discoveryRetry
  }

  function Tries(s: Session, l: Loop): Byte {
    match l
    case LinkLoop => s.lcp.retries
    case PapLoop => s.login.retries
    case ChapLoop => s.login.retries
    case IpcpLoop => s.ipcp.retries
    case Ip6cpLoop => s.ip6cp.retries
    case EchoLoop => s.lcp.retries
    case PadrLoop => s.pppoe.retries
  }

  // The session waits for the peer in this loop.
  predicate InLoop(s: Session, l: Loop) {
    match l
    case LinkLoop => s.state.PppLink? && !s.lcp.state.Opened?
    case PapLoop => s.state.PppAuth? && SendChap !in s.send
    case ChapLoop => s.state.PppAuth? && SendPap !in s.send
    case IpcpLoop => s.state.PppNetwork? && Negotiating(s.ipcp.state)
    case Ip6cpLoop => s.state.PppNetwork? && Negotiating(s.ip6cp.state)
    case EchoLoop => s.state.Established?
    case PadrLoop => s.state.PppoeRequest?
  }

  // The peer is silent: nothing but this timer and the transmit job runs.
  predicate Silent(e: Event, l: Loop) {
    e.Tx? || e == TimerOf(l)
  }

  // ---- A bound on the steps to come

  function Order(b: SendBit): nat {
    match b
    case SendDiscovery => 0
    case SendLcpRequest => 1
    case SendLcpResponse => 2
    case SendPap => 3
    case SendChap => 4
    case SendIpcpRequest => 5
    case SendIpcpResponse => 6
    case SendIp6cpRequest => 7
    case SendIp6cpResponse => 8
    case SendRs => 9
  }

  // The pending transmissions that go out first.
  function Ahead(send: set<SendBit>, b: SendBit): set<SendBit> {
    set c | c in send && Order(c) < Order(b)
  }

  const BITS := {SendDiscovery, SendLcpRequest, SendLcpResponse, SendPap, SendChap, SendIpcpRequest, SendIpcpResponse,
                 SendIp6cpRequest, SendIp6cpResponse, SendRs}

  lemma {:induction false} Smaller<T>(a: set<T>, b: set<T>)
    requires a <= b
    ensures |a| <= |b|
    decreases |a|
  {
    if a != {} {
      var x :| x in a;
      Smaller(a - {x}, b - {x});
    }
  }

  lemma InBits(b: SendBit)
    ensures b in BITS
  {
  }

  lemma AheadBound(send: set<SendBit>, b: SendBit)
    ensures |Ahead(send, b)| <= 9
  {
    assert Ahead(send, b) <= BITS - {b};
    assert |BITS| == 10 && b in BITS;
    Smaller(Ahead(send, b), BITS - {b});
  }

  // Weight of a session in a loop: what is left of the attempts, and how far the
  // next one has come.
  function Weight(cfg: Config, s: Session, l: Loop): nat {
    if Tries(s, l) > Limit(cfg, l) then 1
    else 12 * (Limit(cfg, l) + 1 - Tries(s, l)) + if BitOf(l) in s.send then 1 + |Ahead(s.send, BitOf(l))| else 11
  }

  // The event that brings the session forward.
  function Helpful(cfg: Config, s: Session, l: Loop): Event {
    if Tries(s, l) <= Limit(cfg, l) && BitOf(l) in s.send then Tx else TimerOf(l)
  }

  // In a loop, with no attempt pending once the limit is exceeded.
  predicate Ready(cfg: Config, s: Session, l: Loop) {
    InLoop(s, l) && (Tries(s, l) <= Limit(cfg, l) || BitOf(l) !in s.send)
  }

  // ---- One step

  lemma ServedFirst(s: Session)
    ensures Served(s).Some? ==> Served(s).value in s.send && forall c :: c in s.send ==> Order(Served(s).value) <= Order(c)
    ensures Served(s).None? ==> s.send == {}
  {
    if Served(s).None? {
      forall c ensures c !in s.send {
        InBits(c);
      }
    }
  }

  // The transmit job in a loop: the bit that is first is served, and an attempt of
  // this loop is counted when it is the loop's own.
  lemma TransmitInLoop(s: Session, l: Loop)
    requires InLoop(s, l)
    ensures var t := Transmit(s);
      && InLoop(t, l)
      && t.send == (if Served(s).Some? then s.send - {Served(s).value} else {})
      && Tries(t, l) == if Served(s) == Some(BitOf(l)) then Bump(Tries(s, l)) else Tries(s, l)
  {
    hide UpdateState;
  }

  lemma TransmitWeight(cfg: Config, s: Session, l: Loop)
    requires Ready(cfg, s, l) && Limit(cfg, l) < 255
    ensures var t := Transmit(s);
      && Ready(cfg, t, l) && Weight(cfg, t, l) <= Weight(cfg, s, l)
      && (Helpful(cfg, s, l) == Tx ==> Weight(cfg, t, l) < Weight(cfg, s, l))
  {
    hide Transmit, Served, InLoop, Tries, Limit, Order;
    var t, b := Transmit(s), BitOf(l);
    TransmitInLoop(s, l);
    ServedFirst(s);
    AheadBound(s.send, b);
    AheadBound(t.send, b);
    if Served(s).Some? && b in s.send && Served(s).value != b {
      var c := Served(s).value;
      OrderInjective(c, b);
      assert Ahead(t.send, b) == Ahead(s.send, b) - {c};
    }
  }

  lemma OrderInjective(a: SendBit, b: SendBit)
    ensures Order(a) == Order(b) ==> a == b
  {
  }

  // The timer in a loop: it gives up exactly when the attempts exceed the limit, and
  // otherwise asks for another one.
  lemma TimerInLoop(cfg: Config, s: Session, l: Loop)
    requires InLoop(s, l)
    ensures var t := Step(cfg, s, TimerOf(l));
      && (InLoop(t, l) <==> Tries(s, l) <= Limit(cfg, l))
      && (InLoop(t, l) ==> Tries(t, l) == Tries(s, l) && BitOf(l) in t.send && t.send <= s.send + {BitOf(l)})
  {
  }

  lemma TimerWeight(cfg: Config, s: Session, l: Loop)
    requires Ready(cfg, s, l) && InLoop(Step(cfg, s, TimerOf(l)), l)
    ensures var t := Step(cfg, s, TimerOf(l));
      && Ready(cfg, t, l) && Weight(cfg, t, l) <= Weight(cfg, s, l)
      && (Helpful(cfg, s, l) != Tx ==> Weight(cfg, t, l) < Weight(cfg, s, l))
  {
    hide Step, InLoop, Tries, Limit, Order;
    var t, b := Step(cfg, s, TimerOf(l)), BitOf(l);
    TimerInLoop(cfg, s, l);
    AheadBound(t.send, b);
    Smaller(Ahead(t.send, b), Ahead(s.send, b));
  }

  // ---- Runs

  ghost predicate AllSilent(es: seq<Event>, l: Loop) {
    forall k :: 0 <= k < |es| ==> Silent(es[k], l)
  }

  lemma SilentProper(es: seq<Event>, l: Loop)
    requires AllSilent(es, l)
    ensures AllProper(es)
  {
  }

  ghost function At(cfg: Config, s: Session, es: seq<Event>): Session
    requires AllProper(es)
  {
    Run(cfg, s, FRESH, es).0
  }

  // The session never leaves the loop.
  ghost predicate Stays(cfg: Config, s: Session, l: Loop, es: seq<Event>)
    requires AllProper(es)
  {
    forall k :: 0 <= k <= |es| ==> InLoop(At(cfg, s, es[..k]), l)
  }

  // How many of the events were helpful when they happened.
  ghost function Helps(cfg: Config, s: Session, l: Loop, es: seq<Event>): nat
    requires AllProper(es)
  {
    if es == [] then 0
    else Helps(cfg, s, l, es[..|es| - 1])
         + if es[|es| - 1] == Helpful(cfg, At(cfg, s, es[..|es| - 1]), l) then 1 else 0
  }

  lemma StaysPrefix(cfg: Config, s: Session, l: Loop, es: seq<Event>, n: nat)
    requires AllProper(es) && n <= |es| && Stays(cfg, s, l, es)
    ensures Stays(cfg, s, l, es[..n])
  {
    hide Run, InLoop, Proper;
    forall k | 0 <= k <= n ensures InLoop(At(cfg, s, es[..n][..k]), l) {
      assert es[..n][..k] == es[..k];
    }
  }

  // With a limit below 255, every run of the timer and the transmit job that stays in
  // the loop has fewer helpful events than the weight it started with.
  lemma {:induction false} GivesUpWithin(cfg: Config, s: Session, l: Loop, es: seq<Event>)
    requires Ready(cfg, s, l) && Limit(cfg, l) < 255 && AllSilent(es, l) && AllProper(es) && Stays(cfg, s, l, es)
    ensures var t := At(cfg, s, es);
      Ready(cfg, t, l) && Weight(cfg, t, l) + Helps(cfg, s, l, es) <= Weight(cfg, s, l)
  {
    hide Step, Observe, InLoop, Ready, Weight, Helpful, Transmit, Proper;
    if es != [] {
      var n := |es| - 1;
      StaysPrefix(cfg, s, l, es, n);
      GivesUpWithin(cfg, s, l, es[..n]);
      var t := At(cfg, s, es[..n]);
      assert es[..|es|] == es;
      assert InLoop(At(cfg, s, es), l);
      assert Silent(es[n], l);
      StepIsTransmit(cfg, t);
      HelpfulKinds(cfg, t, l);
      if es[n].Tx? {
        TransmitWeight(cfg, t, l);
      } else {
        TimerWeight(cfg, t, l);
      }
    }
  }

  lemma StepIsTransmit(cfg: Config, s: Session)
    ensures Step(cfg, s, Tx) == Transmit(s)
  {
  }

  lemma HelpfulKinds(cfg: Config, s: Session, l: Loop)
    ensures Helpful(cfg, s, l) == Tx || Helpful(cfg, s, l) == TimerOf(l)
    ensures TimerOf(l) != Tx
  {
  }

  // With a limit of 255 the attempts, kept in a byte, never exceed it: whatever the
  // timer and the transmit job do, the session stays in the loop for ever.
  lemma {:induction false} NeverGivesUp(cfg: Config, s: Session, l: Loop, es: seq<Event>)
    requires InLoop(s, l) && Limit(cfg, l) >= 255 && AllSilent(es, l) && AllProper(es)
    ensures InLoop(At(cfg, s, es), l)
  {
    hide Step, Observe, InLoop, Transmit, Proper;
    if es != [] {
      var n := |es| - 1;
      NeverGivesUp(cfg, s, l, es[..n]);
      var t := At(cfg, s, es[..n]);
      assert Silent(es[n], l);
      StepIsTransmit(cfg, t);
      TransmitInLoop(t, l);
      TimerInLoop(cfg, t, l);
    }
  }

  lemma {:induction false} RunCons(cfg: Config, s: Session, m: Monitor, e: Event, es: seq<Event>)
    requires Proper(e) && AllProper(es)
    ensures AllProper([e] + es)
    ensures Run(cfg, s, m, [e] + es)
         == Run(cfg, Step(cfg, s, e), Observe(cfg, m, s, e, Step(cfg, s, e)), es)
  {
    hide Step, Observe, Proper;
    if es == [] {
      assert [e] + es == [e] && [e][..0] == [];
      assert Run(cfg, s, m, []) == (s, m);
    } else {
      var n := |es| - 1;
      RunCons(cfg, s, m, e, es[..n]);
      assert ([e] + es)[..n + 1] == [e] + es[..n] && ([e] + es)[n + 1] == es[n];
    }
  }

  // The session does not depend on the monitor.
  lemma {:induction false} MonitorIrrelevant(cfg: Config, s: Session, m: Monitor, es: seq<Event>)
    requires AllProper(es)
    ensures Run(cfg, s, m, es).0 == At(cfg, s, es)
  {
    hide Step, Observe, Proper;
    if es != [] {
      MonitorIrrelevant(cfg, s, m, es[..|es| - 1]);
    }
  }

  // The run that takes the helpful event every time leaves the loop.
  lemma GiveUpRun(cfg: Config, s: Session, l: Loop) returns (es: seq<Event>)
    requires Ready(cfg, s, l) && Limit(cfg, l) < 255
    ensures AllSilent(es, l) && AllProper(es) && !InLoop(At(cfg, s, es), l)
    decreases Weight(cfg, s, l)
  {
    hide Step, Observe, InLoop, Ready, Weight, Helpful, Transmit, Proper;
    var e := Helpful(cfg, s, l);
    HelpfulKinds(cfg, s, l);
    SilentProper([e], l);
    var t := Step(cfg, s, e);
    StepIsTransmit(cfg, s);
    if InLoop(t, l) {
      if e == Tx {
        TransmitWeight(cfg, s, l);
      } else {
        TimerWeight(cfg, s, l);
      }
      var rest := GiveUpRun(cfg, t, l);
      es := [e] + rest;
      assert Proper([e][0]);
      RunCons(cfg, s, FRESH, e, rest);
      MonitorIrrelevant(cfg, t, Observe(cfg, FRESH, s, e, t), rest);
    } else {
      es := [e];
      assert Proper([e][0]);
      assert [e] + [] == [e];
      RunCons(cfg, s, FRESH, e, []);
    }
  }

  ghost predicate Leaves(cfg: Config, s: Session, l: Loop, es: seq<Event>) {
    AllSilent(es, l) && AllProper(es) && !InLoop(At(cfg, s, es), l)
  }

  // A silent peer is given up, in each of the loops, if and only if the configured
  // number of retries is below 255, which the configuration allows.
  lemma GivesUpIff(cfg: Config, s: Session, l: Loop)
    requires Ready(cfg, s, l)
    ensures (exists es :: Leaves(cfg, s, l, es)) <==> Limit(cfg, l) < 255
  {
    hide InLoop, Limit, Tries, At, AllSilent, AllProper;
    if Limit(cfg, l) < 255 {
      var es := GiveUpRun(cfg, s, l);
      assert Leaves(cfg, s, l, es);
    } else {
      forall es | AllSilent(es, l) && AllProper(es) ensures !Leaves(cfg, s, l, es) {
        NeverGivesUp(cfg, s, l, es);
      }
    }
  }

  // What giving up means: back to discovery, a PADT, a Terminate-Request, or a
  // closed NCP. A closed NCP ends the session exactly when the other one is closed
  // too; a disabled one does not count as closed, and the session then stays in the
  // network phase.
  lemma GivingUp(cfg: Config, s: Session, l: Loop)
    requires InLoop(s, l) && Tries(s, l) > Limit(cfg, l)
    ensures var t := Step(cfg, s, TimerOf(l));
      match l
      case PadrLoop => t.state.PppoeInit? && t.send == {SendDiscovery}
      case LinkLoop => t.state.Terminating? && t.send == {SendDiscovery}
      case EchoLoop => t.state.Terminating? && t.send == {SendDiscovery}
      case PapLoop => t.state.PppTerminating? && SendLcpRequest in t.send
      case ChapLoop => t.state.PppTerminating? && SendLcpRequest in t.send
      case IpcpLoop => t.ipcp.state.Closed? && t.state == if s.ip6cp.state.Closed? then PppTerminating else PppNetwork
      case Ip6cpLoop => t.ip6cp.state.Closed? && t.state == if s.ipcp.state.Closed? then PppTerminating else PppNetwork
  {
  }

  // Nothing is heard and nobody interferes: the transmit job and the timers run, except
  // that of IP6CP, which is not started when IP6CP is disabled.
  predicate Unattended(e: Event) {
    || e.Tx? || e.PadiTimeout? || e.PadrTimeout? || e.LcpTimeout? || e.LcpStartDelay? || e.LcpEcho?
    || e.PapTimeout? || e.ChapTimeout? || e.IpcpTimeout? || e.SessionTimeout?
  }

  predicate Hangs(s: Session) {
    s.state.PppNetwork? && s.ipcp.state.Closed? && s.ip6cp.state.Disabled?
  }

  lemma HangsOn(cfg: Config, s: Session, e: Event)
    requires Hangs(s) && Unattended(e)
    ensures Hangs(Step(cfg, s, e))
  {
  }

  // For example: with IP6CP disabled and a silent peer, the timeout that gives up IPCP
  // leaves the session in the network phase with IPCP closed, and there it stays,
  // whatever timers and transmissions follow.
  lemma {:induction false} LoneNcpHangs(cfg: Config, s: Session, es: seq<Event>)
    requires InLoop(s, IpcpLoop) && s.ipcp.retries > cfg.ipcpRetry && s.ip6cp.state.Disabled?
    requires AllProper(es) && forall k :: 0 <= k < |es| ==> Unattended(es[k])
    ensures var t := Step(cfg, s, IpcpTimeout);
      t.send == s.send && Hangs(At(cfg, t, es))
  {
    if es != [] {
      var n := |es| - 1;
      LoneNcpHangs(cfg, s, es[..n]);
      hide Step, Hangs, Unattended, Observe;
      HangsOn(cfg, At(cfg, Step(cfg, s, IpcpTimeout), es[..n]), es[n]);
    }
  }
}
