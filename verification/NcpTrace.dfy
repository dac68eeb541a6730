/**
 How the network phase ends. For every sequence of packets and transmissions
 that does not take the link or an NCP down, the state of each NCP is determined
 by what was heard, and the session is established exactly once, by the event
 that completes the last NCP.
 */
module NcpTrace {
  import opened Types
  import opened ClientSpec
  import opened Skeleton
  import opened ClientRuns

  datatype Mark = IpcpAccepted | IpcpAcked | Ip6cpAccepted | Ip6cpAcked

  predicate IsIpcp(e: Event, code: Byte) {
    e.Rx? && e.packet.Ipcp? && e.packet.ipcp.code == code
  }

  predicate IsIp6cp(e: Event, code: Byte) {
    e.Rx? && e.packet.Ip6cp? && e.packet.ip6cp.code == code
  }

  predicate Marks(e: Event, mark: Mark) {
    match mark
    case IpcpAccepted => IsIpcp(e, CONF_REQUEST) && AcceptsIpcp(e.packet.ipcp)
    case IpcpAcked => IsIpcp(e, CONF_ACK)
    case Ip6cpAccepted => IsIp6cp(e, CONF_REQUEST)
    case Ip6cpAcked => IsIp6cp(e, CONF_ACK)
  }

  ghost predicate Saw(es: seq<Event>, mark: Mark) {
    exists i :: 0 <= i < |es| && Marks(es[i], mark)
  }

  // Any transmission and any packet except those that end the link or an NCP.
  predicate Ordinary(e: Event) {
    e.Tx? || (e.Rx? &&
      match e.packet
      case Discovery(d) => d.code != PADT
      case Lcp(l) => l.code != TERM_REQUEST && l.code != TERM_ACK && l.code != PROT_REJECT
      case Ipcp(i) => i.code != TERM_ACK
      case Ip6cp(i) => i.code != TERM_ACK
      case _ => true)
  }

  ghost predicate AllOrdinary(es: seq<Event>) {
    forall i :: 0 <= i < |es| ==> Ordinary(es[i])
  }

  // The network phase has just begun; a started NCP is not switched off globally.
  predicate NetworkBegins(cfg: Config, s: Session) {
    && s.state.PppNetwork? && s.lcp.state.Opened?
    && (s.ipcp.state.Disabled? || (s.ipcp.state.Init? && cfg.ipcpGlobal))
    && (s.ip6cp.state.Disabled? || (s.ip6cp.state.Init? && cfg.ip6cpGlobal))
  }

  function Expected(start: PppState, accepted: bool, acked: bool): PppState {
    if start.Disabled? then Disabled else Heard(accepted, acked)
  }

  // Every started NCP has heard both, and there is one.
  ghost predicate Complete(s: Session, es: seq<Event>) {
    && (s.ipcp.state.Disabled? || (Saw(es, IpcpAccepted) && Saw(es, IpcpAcked)))
    && (s.ip6cp.state.Disabled? || (Saw(es, Ip6cpAccepted) && Saw(es, Ip6cpAcked)))
    && !(s.ipcp.state.Disabled? && s.ip6cp.state.Disabled?)
  }

  ghost function After(cfg: Config, s: Session, es: seq<Event>): Session
    requires AllProper(es)
  {
    Run(cfg, s, FRESH, es).0
  }

  // ---- One event

  lemma OrdinaryStimulus(cfg: Config, s: Session, e: Event)
    requires Ordinary(e) && s.lcp.state.Opened? && (s.state.PppNetwork? || s.state.Established?)
    ensures var i := StimulusOf(cfg, s, e);
      && (i.Quiet? || i.PeerAgreed? || i.PeerRefused? || i.OwnAgreed? || i.IpcpTo? || i.Ip6cpTo?)
      && (i.IpcpTo? <==> cfg.ipcpGlobal && (Marks(e, IpcpAccepted) || Marks(e, IpcpAcked)))
      && (i.Ip6cpTo? <==> cfg.ip6cpGlobal && (Marks(e, Ip6cpAccepted) || Marks(e, Ip6cpAcked)))
      && (i.IpcpTo? ==> i.next == if Marks(e, IpcpAcked) then OnConfAck(s.ipcp.state) else OnConfRequest(s.ipcp.state))
      && (i.Ip6cpTo? ==> i.next == if Marks(e, Ip6cpAcked) then OnConfAck(s.ip6cp.state) else OnConfRequest(s.ip6cp.state))
  {
    hide NaksAuth, NegotiatedAuth, OnConfAck, OnConfRequest, HostUniqMatches, Served;
  }

  lemma OnAck(start: PppState, accepted: bool, acked: bool)
    requires start.Disabled? || start.Init?
    ensures OnConfAck(Expected(start, accepted, acked)) == Expected(start, accepted, true)
    ensures OnConfRequest(Expected(start, accepted, acked)) == Expected(start, true, acked)
  {
  }

  lemma OrdinaryStep(cfg: Config, c: Control, i: Stimulus)
    requires c.lcp.Opened? && (c.state.PppNetwork? || c.state.Established?)
    requires i.Quiet? || i.PeerAgreed? || i.PeerRefused? || i.OwnAgreed? || i.IpcpTo? || i.Ip6cpTo?
    ensures var d := Advance(cfg, c, i);
      && d.lcp.Opened?
      && d.ipcp == (if i.IpcpTo? then i.next else c.ipcp)
      && d.ip6cp == (if i.Ip6cpTo? then i.next else c.ip6cp)
      && d.state == (if c.state.PppNetwork?
                        && ((i.IpcpTo? && i.next.Opened? && !c.ipcp.Opened?) || (i.Ip6cpTo? && i.next.Opened? && !c.ip6cp.Opened?))
                        && NcpSuccess(d.ipcp) && NcpSuccess(d.ip6cp)
                     then Established else c.state)
  {
  }

  lemma SawSnoc(es: seq<Event>, e: Event, mark: Mark)
    ensures Saw(es + [e], mark) <==> Saw(es, mark) || Marks(e, mark)
  {
    var all := es + [e];
    assert all[|es|] == e;
    if Saw(es, mark) {
      var i :| 0 <= i < |es| && Marks(es[i], mark);
      assert all[i] == es[i];
    }
  }

  lemma SawAll(es: seq<Event>, e: Event)
    ensures forall mark :: Saw(es + [e], mark) <==> Saw(es, mark) || Marks(e, mark)
  {
    forall mark ensures Saw(es + [e], mark) <==> Saw(es, mark) || Marks(e, mark) {
      SawSnoc(es, e, mark);
    }
  }

  // ---- The trace theorem

  ghost predicate Traced(s: Session, es: seq<Event>, t: Session) {
    && t.lcp.state.Opened?
    && t.ipcp.state == Expected(s.ipcp.state, Saw(es, IpcpAccepted), Saw(es, IpcpAcked))
    && t.ip6cp.state == Expected(s.ip6cp.state, Saw(es, Ip6cpAccepted), Saw(es, Ip6cpAcked))
    && t.state == if Complete(s, es) then Established else PppNetwork
  }

  lemma TraceStep(cfg: Config, s: Session, es: seq<Event>, t: Session, e: Event)
    requires ValidConfig(cfg) && NetworkBegins(cfg, s) && Traced(s, es, t) && Ordinary(e) && Proper(e)
    ensures Traced(s, es + [e], Step(cfg, t, e))
  {
    hide Step, StimulusOf, Advance, Enabled, Saw, Marks, Ordinary, Observe, Watch, Expected, OnConfAck, OnConfRequest;
    SawAll(es, e);
    StepOf(cfg, t, FRESH, e);
    OrdinaryStimulus(cfg, t, e);
    OrdinaryStep(cfg, View(t), StimulusOf(cfg, t, e));
    MarksExclusive(e);
    OnAck(s.ipcp.state, Saw(es, IpcpAccepted), Saw(es, IpcpAcked));
    OnAck(s.ip6cp.state, Saw(es, Ip6cpAccepted), Saw(es, Ip6cpAcked));
    ExpectedOpened(s.ipcp.state, Saw(es, IpcpAccepted), Saw(es, IpcpAcked));
    ExpectedOpened(s.ip6cp.state, Saw(es, Ip6cpAccepted), Saw(es, Ip6cpAcked));
    ExpectedOpened(s.ipcp.state, Saw(es + [e], IpcpAccepted), Saw(es + [e], IpcpAcked));
    ExpectedOpened(s.ip6cp.state, Saw(es + [e], Ip6cpAccepted), Saw(es + [e], Ip6cpAcked));
  }

  lemma ExpectedOpened(start: PppState, accepted: bool, acked: bool)
    requires start.Disabled? || start.Init?
    ensures Expected(start, accepted, acked).Opened? <==> start.Init? && accepted && acked
    ensures start.Disabled? ==> Expected(start, accepted, acked).Disabled?
    ensures NcpSuccess(Expected(start, accepted, acked)) <==> start.Disabled? || (accepted && acked)
  {
  }

  lemma MarksExclusive(e: Event)
    ensures forall a, b :: Marks(e, a) && Marks(e, b) ==> a == b
  {
  }

  // Each NCP state is determined by (accepted a Configure-Request, heard a
  // Conf-Ack), and the session is established exactly when all have both.
  lemma NcpTraceTheorem(cfg: Config, s: Session, es: seq<Event>)
    requires ValidConfig(cfg) && NetworkBegins(cfg, s) && AllProper(es) && AllOrdinary(es)
    ensures Traced(s, es, After(cfg, s, es))
  {
    hide Step, Observe, Ordinary;
    if es == [] {
      hide Ordinary;
    } else {
      var n := |es| - 1;
      NcpTraceTheorem(cfg, s, es[..n]);
      assert es == es[..n] + [es[n]];
      TraceStep(cfg, s, es[..n], After(cfg, s, es[..n]), es[n]);
    }
  }

  // ---- Established exactly once

  ghost predicate EntersAt(cfg: Config, s: Session, es: seq<Event>, k: nat)
    requires AllProper(es) && k < |es|
  {
    !After(cfg, s, es[..k]).state.Established? && After(cfg, s, es[..k + 1]).state.Established?
  }

  lemma SawGrows(es: seq<Event>, j: nat, k: nat, mark: Mark)
    requires j <= k <= |es| && Saw(es[..j], mark)
    ensures Saw(es[..k], mark)
  {
    var i :| 0 <= i < |es[..j]| && Marks(es[..j][i], mark);
    assert es[..k][i] == es[..j][i];
  }

  lemma CompleteGrows(s: Session, es: seq<Event>, j: nat, k: nat)
    requires j <= k <= |es| && Complete(s, es[..j])
    ensures Complete(s, es[..k])
  {
    forall mark | Saw(es[..j], mark) ensures Saw(es[..k], mark) {
      SawGrows(es, j, k, mark);
    }
  }

  lemma CompletedAt(s: Session, es: seq<Event>) returns (k: nat)
    requires Complete(s, es) && !Complete(s, [])
    ensures k < |es| && !Complete(s, es[..k]) && Complete(s, es[..k + 1])
  {
    hide Complete;
    assert es[..|es|] == es && es[..0] == [];
    k := 0;
    while !Complete(s, es[..k + 1])
      invariant k < |es| && !Complete(s, es[..k])
      decreases |es| - k
    {
      k := k + 1;
    }
  }

  // The session enters the established phase exactly on the event that completes
  // the last started NCP, and only once.
  lemma EstablishedOnce(cfg: Config, s: Session, es: seq<Event>)
    requires ValidConfig(cfg) && NetworkBegins(cfg, s) && AllProper(es) && AllOrdinary(es)
    ensures forall k :: 0 <= k < |es| ==>
      (EntersAt(cfg, s, es, k) <==> !Complete(s, es[..k]) && Complete(s, es[..k + 1]))
    ensures Complete(s, es) <==> exists k :: 0 <= k < |es| && EntersAt(cfg, s, es, k)
    ensures forall j, k :: 0 <= j < |es| && 0 <= k < |es| && EntersAt(cfg, s, es, j) && EntersAt(cfg, s, es, k) ==> j == k
  {
    hide Complete, After, Ordinary;
    forall k | 0 <= k < |es|
      ensures EntersAt(cfg, s, es, k) <==> !Complete(s, es[..k]) && Complete(s, es[..k + 1])
    {
      NcpTraceTheorem(cfg, s, es[..k]);
      NcpTraceTheorem(cfg, s, es[..k + 1]);
    }
    forall j, k | 0 <= j <= k <= |es| && Complete(s, es[..j]) ensures Complete(s, es[..k]) {
      CompleteGrows(s, es, j, k);
    }
    assert es[..|es|] == es;
    EmptyIncomplete(cfg, s);
    if Complete(s, es) {
      var k := CompletedAt(s, es);
      assert EntersAt(cfg, s, es, k);
    }
  }

  lemma EmptyIncomplete(cfg: Config, s: Session)
    requires NetworkBegins(cfg, s)
    ensures !Complete(s, [])
  {
  }
}
