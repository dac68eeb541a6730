/**
 The control skeleton of the client: phase, the three control protocol states
 and the negotiated authentication protocol. Every event drives the skeleton
 through one stimulus, and the client projects onto it step by step.
 */
module Skeleton {
  import opened Types
  import opened ClientSpec
  import Options

  datatype Control = Control(state: SessionState, lcp: PppState, ipcp: PppState, ip6cp: PppState, auth: nat)

  datatype Stimulus =
    | Quiet
    | Offered                      // PADO accepted
    | LinkUp                       // PADS accepted
    | OfferLost                    // discovery starts over
    | PeerAgreed(auth: nat)        // peer Configure-Request acknowledged
    | PeerRefused(auth: nat)       // peer Configure-Request answered with Conf-Nak
    | OwnAgreed                    // Conf-Ack for our LCP request
    | Terminated_                  // session removed
    | Abandoned                    // link given up, PADT pending
    | LinkTerminated               // Terminate-Request sent or received
    | ProtocolRejected(protocol: nat)
    | AuthPassed
    | IpcpTo(next: PppState)       // NCP moves on a configure packet
    | Ip6cpTo(next: PppState)
    | IpcpForced(next: PppState)   // NCP state set outside negotiation
    | Ip6cpForced(next: PppState)
    | IpcpExpired
    | Ip6cpExpired
    | Started
    | Restarted

  function View(s: Session): Control {
    Control(s.state, s.lcp.state, s.ipcp.state, s.ip6cp.state, s.auth)
  }

  function CloseState(p: PppState): PppState {
    if p.Disabled? then p else Closed
  }

  function Move(c: Control, next: SessionState): Control {
    if c.state == next then c
    else if next.PppTerminating? then c.(state := next, ipcp := CloseState(c.ipcp), ip6cp := CloseState(c.ip6cp))
    else if next.Terminated? then
      c.(state := next, ipcp := CloseState(c.ipcp), ip6cp := CloseState(c.ip6cp), lcp := Closed)
    else c.(state := next)
  }

  function Check(c: Control): Control {
    if NcpSuccess(c.ipcp) && NcpSuccess(c.ip6cp) then Move(c, Established) else c
  }

  function Network(cfg: Config, c: Control): Control {
    Move(c, PppNetwork).(ipcp := if cfg.ipcpEnable then Init else c.ipcp,
                         ip6cp := if cfg.ip6cpEnable then Init else c.ip6cp)
  }

  function Open(cfg: Config, c: Control): Control {
    var d := c.(lcp := Opened);
    if IsAuth(d.auth) then Move(d, PppAuth) else Network(cfg, d)
  }

  function Advance(cfg: Config, c: Control, i: Stimulus): Control {
    match i
    case Quiet => c
    case Offered => Move(c, PppoeRequest)
    case LinkUp => Move(c, PppLink).(lcp := Init)
    case OfferLost => Move(c, PppoeInit)
    case PeerAgreed(auth) =>
      var d := c.(auth := auth);
      if c.lcp.Init? then d.(lcp := PeerAck)
      else if c.lcp.LocalAck? then Open(cfg, d)
      else d
    case PeerRefused(auth) => c.(auth := auth)
    case OwnAgreed =>
      if c.lcp.Init? then c.(lcp := LocalAck)
      else if c.lcp.PeerAck? then Open(cfg, c)
      else c
    case Terminated_ => Move(c, Terminated)
    case Abandoned =>
      c.(state := Terminating, lcp := Closed, ipcp := CloseState(c.ipcp), ip6cp := CloseState(c.ip6cp))
    case LinkTerminated => Move(c, PppTerminating).(lcp := Terminate)
    case ProtocolRejected(protocol) =>
      Check(if protocol == PROTOCOL_IPCP then c.(ipcp := Rejected)
            else if protocol == PROTOCOL_IP6CP then c.(ip6cp := Rejected)
            else c)
    case AuthPassed => Network(cfg, c)
    case IpcpTo(next) =>
      if next.Opened? && !c.ipcp.Opened? then Check(c.(ipcp := next)) else c.(ipcp := next)
    case Ip6cpTo(next) =>
      if next.Opened? && !c.ip6cp.Opened? then Check(c.(ip6cp := next)) else c.(ip6cp := next)
    case IpcpForced(next) => c.(ipcp := next)
    case Ip6cpForced(next) => c.(ip6cp := next)
    case IpcpExpired =>
      var d := c.(ipcp := Closed);
      if d.ip6cp.Closed? then Move(d, PppTerminating).(lcp := Terminate) else d
    case Ip6cpExpired =>
      var d := c.(ip6cp := Closed);
      if d.ipcp.Closed? then Move(d, PppTerminating).(lcp := Terminate) else d
    case Started => c.(state := PppoeInit)
    case Restarted => c.(state := Idle, auth := 0)
  }

  // ---- Which stimulus an event is

  function LcpStimulus(cfg: Config, s: Session, p: LcpPacket): Stimulus {
    if Rank(s.state) < Rank(PppLink) then Quiet
    else if p.code == TERM_REQUEST then LinkTerminated
    else if p.code == TERM_ACK then Abandoned
    else if s.state.PppTerminating? then Quiet
    else if p.code == CONF_REQUEST && !p.unknownOptions then
      (if NaksAuth(cfg, p) then PeerRefused(NegotiatedAuth(cfg, s, p)) else PeerAgreed(NegotiatedAuth(cfg, s, p)))
    else if p.code == CONF_ACK then OwnAgreed
    else if p.code == PROT_REJECT then ProtocolRejected(p.protocol)
    else Quiet
  }

  function DiscoveryStimulus(cfg: Config, s: Session, d: DiscoveryPacket): Stimulus {
    if d.code == PADO && s.state.PppoeInit? && (s.pppoe.service == [] || ServiceMatches(s, d.service)) && HostUniqMatches(cfg, d)
    then Offered
    else if d.code == PADS && AcceptsPads(cfg, s, d) then LinkUp
    else if d.code == PADT then Terminated_
    else Quiet
  }

  function IpcpStimulus(cfg: Config, s: Session, p: IpcpPacket): Stimulus {
    if !s.lcp.state.Opened? || !cfg.ipcpGlobal then Quiet
    else if p.code == CONF_REQUEST && AcceptsIpcp(p) then IpcpTo(OnConfRequest(s.ipcp.state))
    else if p.code == CONF_ACK then IpcpTo(OnConfAck(s.ipcp.state))
    else if p.code == TERM_ACK then IpcpForced(Closed)
    else Quiet
  }

  function Ip6cpStimulus(cfg: Config, s: Session, p: Ip6cpPacket): Stimulus {
    if !s.lcp.state.Opened? || !cfg.ip6cpGlobal then Quiet
    else if p.code == CONF_REQUEST then Ip6cpTo(OnConfRequest(s.ip6cp.state))
    else if p.code == CONF_ACK then Ip6cpTo(OnConfAck(s.ip6cp.state))
    else if p.code == TERM_ACK then Ip6cpForced(Closed)
    else Quiet
  }

  function AuthStimulus(s: Session, p: Packet): Stimulus
    requires p.Pap? || p.Chap?
  {
    if !s.state.PppAuth? then Quiet
    else if (p.Pap? && p.papCode == PAP_ACK) || (p.Chap? && p.chapCode == CHAP_SUCCESS) then AuthPassed
    else if p.Chap? && p.chapCode == CHAP_CHALLENGE && p.challengeLen > 0 then Quiet
    else LinkTerminated
  }

  function ClearStimulus(s: Session): Stimulus {
    match s.state
    case Idle | PppoeInit | IpoeSetup => Terminated_
    case PppoeRequest | PppLink => Abandoned
    case PppAuth | PppNetwork | Established | PppTerminating => LinkTerminated
    case Terminating | Terminated => Quiet
  }

  function ReceiveStimulus(cfg: Config, s: Session, p: Packet): Stimulus {
    if s.state.Terminated? || s.state.Idle? then Quiet else
    match p
    case Discovery(d) => DiscoveryStimulus(cfg, s, d)
    case Lcp(l) => LcpStimulus(cfg, s, l)
    case Pap(_, _, _) => AuthStimulus(s, p)
    case Chap(_, _, _, _) => AuthStimulus(s, p)
    case Ipcp(i) => IpcpStimulus(cfg, s, i)
    case Ip6cp(i) => Ip6cpStimulus(cfg, s, i)
    case RouterSolicitation => Quiet
  }

  function LocalStimulus(cfg: Config, s: Session, e: Event): Stimulus {
    match e
    case Tx => if Served(s) == Some(SendDiscovery) && s.state.Terminating? then Terminated_ else Quiet
    case PadrTimeout => if s.state.PppoeRequest? && s.pppoe.retries > cfg.discoveryRetry then OfferLost else Quiet
    case LcpTimeout =>
      if s.state.PppLink? && !s.lcp.state.Opened? && s.lcp.retries > cfg.lcpRetry then ClearStimulus(s)
      else if s.state.PppTerminating? then (if s.lcp.retries > 3 then Abandoned else ClearStimulus(s))
      else Quiet
    case LcpEcho => if s.state.Established? && s.lcp.retries > cfg.keepaliveRetry then Abandoned else Quiet
    case PapTimeout | ChapTimeout =>
      if s.state.PppAuth? && s.login.retries > cfg.authRetry then ClearStimulus(s) else Quiet
    case IpcpTimeout =>
      if s.state.PppNetwork? && !s.ipcp.state.Opened? && s.ipcp.retries > cfg.ipcpRetry then IpcpExpired else Quiet
    case Ip6cpTimeout =>
      if s.state.PppNetwork? && !s.ip6cp.state.Opened? && s.ip6cp.retries > cfg.ip6cpRetry then Ip6cpExpired else Quiet
    case SessionTimeout => if s.state.Established? then ClearStimulus(s) else Quiet
    case Clear => ClearStimulus(s)
    case OpenIpcp => if NetworkUp(s) && s.ipcp.state.Closed? then IpcpForced(Init) else Quiet
    case OpenIp6cp => if NetworkUp(s) && s.ip6cp.state.Closed? then Ip6cpForced(Init) else Quiet
    case CloseIpcp => if NetworkUp(s) && s.ipcp.state.Opened? then IpcpForced(Terminate) else Quiet
    case CloseIp6cp => if NetworkUp(s) && s.ip6cp.state.Opened? then Ip6cpForced(Terminate) else Quiet
    case Start => if s.state.Idle? then Started else Quiet
    case Restart => if s.state.Terminated? then Restarted else Quiet
    case _ => Quiet
  }

  function StimulusOf(cfg: Config, s: Session, e: Event): Stimulus {
    if e.Rx? then ReceiveStimulus(cfg, s, e.packet) else LocalStimulus(cfg, s, e)
  }

  // ---- The client projects onto the skeleton

  lemma ProjectMove(s: Session, next: SessionState)
    ensures View(UpdateState(s, next)) == Move(View(s), next)
  {
  }

  lemma ProjectAbandon(cfg: Config, s: Session)
    ensures View(AbandonLink(s)) == Advance(cfg, View(s), Abandoned)
  {
  }

  lemma ProjectTerminate(cfg: Config, s: Session)
    ensures View(TerminateLink(s)) == Advance(cfg, View(s), LinkTerminated)
  {
  }

  lemma ProjectClear(cfg: Config, s: Session)
    ensures View(ClearSession(s)) == Advance(cfg, View(s), ClearStimulus(s))
  {
    hide AbandonLink, TerminateLink, UpdateState;
    ProjectAbandon(cfg, s);
    ProjectTerminate(cfg, s);
    ProjectMove(s, Terminated);
  }

  lemma ProjectNetwork(cfg: Config, s: Session)
    ensures View(EnterNetwork(cfg, s)) == Network(cfg, View(s))
  {
    hide UpdateState;
    ProjectMove(s, PppNetwork);
  }

  lemma ProjectLcpOpened(cfg: Config, s: Session)
    ensures View(LcpOpened(cfg, s)) == Open(cfg, View(s))
  {
    hide UpdateState, EnterNetwork;
    var t := s.(lcp := s.lcp.(state := Opened));
    ProjectMove(t, PppAuth);
    ProjectNetwork(cfg, t);
  }

  lemma ProjectCheck(s: Session)
    ensures View(CheckEstablished(s)) == Check(View(s))
  {
    hide UpdateState;
    ProjectMove(s, Established);
  }

  lemma ProjectConfAck(cfg: Config, s: Session)
    ensures View(RxLcpConfAck(cfg, s)) == Advance(cfg, View(s), OwnAgreed)
  {
    hide LcpOpened, Open;
    var t := s.(lcp := s.lcp.(retries := 0));
    ProjectLcpOpened(cfg, t);
    assert View(t) == View(s);
  }

  lemma ProjectConfRequest(cfg: Config, s: Session, p: LcpPacket)
    requires Options.WellFormed(p.options)
    ensures View(RxLcpConfRequest(cfg, s, p))
         == if p.unknownOptions then View(s)
            else Advance(cfg, View(s), if NaksAuth(cfg, p) then PeerRefused(NegotiatedAuth(cfg, s, p))
                                       else PeerAgreed(NegotiatedAuth(cfg, s, p)))
  {
    hide LcpOpened, Open, NaksAuth, NegotiatedAuth, SuggestedAuth, Options.LcpReject;
    var u := s.(auth := NegotiatedAuth(cfg, s, p), link := HeardLink(s.link, p),
                lcp := s.lcp.(options := KeptOptions(s.lcp.options, p.options)));
    ProjectLcpOpened(cfg, u);
  }

  lemma ProjectTermRequest(cfg: Config, s: Session, p: LcpPacket)
    ensures View(RxLcpTermRequest(s, p)) == Advance(cfg, View(s), LinkTerminated)
  {
  }

  lemma ProjectProtReject(cfg: Config, s: Session, p: LcpPacket)
    ensures View(RxLcpProtReject(s, p)) == Advance(cfg, View(s), ProtocolRejected(p.protocol))
  {
    hide CheckEstablished, Check;
    ProjectCheck(s);
    ProjectCheck(s.(ipcp := s.ipcp.(state := Rejected)));
    ProjectCheck(s.(ip6cp := s.ip6cp.(state := Rejected)));
  }

  lemma ProjectLcp(cfg: Config, s: Session, p: LcpPacket)
    requires Decoded(Lcp(p))
    ensures View(RxLcp(cfg, s, p)) == Advance(cfg, View(s), LcpStimulus(cfg, s, p))
  {
    hide RxLcpConfRequest, RxLcpConfAck, RxLcpTermRequest, AbandonLink, RxLcpProtReject, NaksAuth, NegotiatedAuth, Advance,
         Bytes32;
    QuietStimulus(cfg, View(s));
    if p.code == CONF_REQUEST {
      ProjectConfRequest(cfg, s, p);
    } else if p.code == CONF_ACK {
      ProjectConfAck(cfg, s);
    } else if p.code == TERM_REQUEST {
      ProjectTermRequest(cfg, s, p);
    } else if p.code == TERM_ACK {
      var t := s.(lcp := s.lcp.(retries := 0));
      ProjectAbandon(cfg, t);
      assert View(t) == View(s);
    } else if p.code == PROT_REJECT {
      ProjectProtReject(cfg, s, p);
    }
  }

  lemma QuietStimulus(cfg: Config, c: Control)
    ensures Advance(cfg, c, Quiet) == c
  {
  }

  lemma ProjectPado(cfg: Config, s: Session, d: DiscoveryPacket)
    requires d.code == PADO
    ensures View(RxPado(cfg, s, d)) == Advance(cfg, View(s), DiscoveryStimulus(cfg, s, d))
  {
    hide HostUniqMatches;
  }

  lemma ProjectDiscovery(cfg: Config, s: Session, d: DiscoveryPacket)
    ensures View(RxDiscovery(cfg, s, d)) == Advance(cfg, View(s), DiscoveryStimulus(cfg, s, d))
  {
    hide RxPado, UpdateState, HostUniqMatches;
    ProjectMove(s, PppLink);
    ProjectMove(s, Terminated);
    if d.code == PADO {
      ProjectPado(cfg, s, d);
    }
  }

  lemma ProjectSetIpcp(cfg: Config, s: Session, next: PppState)
    ensures View(SetIpcp(s, next)) == Advance(cfg, View(s), IpcpTo(next))
  {
    hide CheckEstablished, Check;
    ProjectCheck(s.(ipcp := s.ipcp.(state := next)));
  }

  lemma ProjectSetIp6cp(cfg: Config, s: Session, next: PppState)
    ensures View(SetIp6cp(s, next)) == Advance(cfg, View(s), Ip6cpTo(next))
  {
    hide CheckEstablished, Check;
    ProjectCheck(s.(ip6cp := s.ip6cp.(state := next)));
  }

  lemma ProjectIpcp(cfg: Config, s: Session, p: IpcpPacket)
    requires Decoded(Ipcp(p))
    ensures View(RxIpcp(cfg, s, p)) == Advance(cfg, View(s), IpcpStimulus(cfg, s, p))
  {
    hide SetIpcp, Options.IpcpReject, OnConfRequest, OnConfAck, Check;
    var t := s.(ip := HeardPeer(s.ip, p));
    ProjectSetIpcp(cfg, t, OnConfRequest(s.ipcp.state));
    ProjectSetIpcp(cfg, s.(ipcp := s.ipcp.(retries := 0)), OnConfAck(s.ipcp.state));
  }

  lemma ProjectIp6cp(cfg: Config, s: Session, p: Ip6cpPacket)
    ensures View(RxIp6cp(cfg, s, p)) == Advance(cfg, View(s), Ip6cpStimulus(cfg, s, p))
  {
    hide SetIp6cp, OnConfRequest, OnConfAck, Check;
    var t := s.(ip6 := HeardPeer6(s.ip6, p));
    ProjectSetIp6cp(cfg, t, OnConfRequest(s.ip6cp.state));
    ProjectSetIp6cp(cfg, s.(ip6cp := s.ip6cp.(retries := 0)), OnConfAck(s.ip6cp.state));
  }

  lemma ProjectAuth(cfg: Config, s: Session, p: Packet)
    requires p.Pap? || p.Chap?
    ensures p.Pap? ==> View(RxPap(cfg, s, p.papCode, p.papL2tp)) == Advance(cfg, View(s), AuthStimulus(s, p))
    ensures p.Chap? ==> View(RxChap(cfg, s, p.chapCode, p.chapId, p.challengeLen, p.chapL2tp))
                        == Advance(cfg, View(s), AuthStimulus(s, p))
  {
    hide EnterNetwork, TerminateLink, Network;
    ProjectTerminate(cfg, s);
    ProjectNetwork(cfg, s.(login := s.login.(l2tp := s.login.l2tp || (if p.Pap? then p.papL2tp else p.chapL2tp))));
  }

  lemma ProjectReceive(cfg: Config, s: Session, p: Packet)
    requires Decoded(p)
    ensures View(Receive(cfg, s, p)) == Advance(cfg, View(s), ReceiveStimulus(cfg, s, p))
  {
    hide Advance, RxDiscovery, RxLcp, RxPap, RxChap, RxIpcp, RxIp6cp, LcpStimulus, DiscoveryStimulus, IpcpStimulus,
         Ip6cpStimulus, AuthStimulus, View, Options.WellFormed;
    QuietStimulus(cfg, View(s));
    match p
    case Discovery(d) => ProjectDiscovery(cfg, s, d);
    case Lcp(l) => ProjectLcp(cfg, s, l);
    case Ipcp(i) => ProjectIpcp(cfg, s, i);
    case Ip6cp(i) => ProjectIp6cp(cfg, s, i);
    case Pap(_, _, _) => ProjectAuth(cfg, s, p);
    case Chap(_, _, _, _) => ProjectAuth(cfg, s, p);
    case RouterSolicitation =>
  }

  lemma ProjectNcpTimeout(cfg: Config, s: Session)
    ensures View(OnIpcpTimeout(cfg, s)) == Advance(cfg, View(s), LocalStimulus(cfg, s, IpcpTimeout))
    ensures View(OnIp6cpTimeout(cfg, s)) == Advance(cfg, View(s), LocalStimulus(cfg, s, Ip6cpTimeout))
  {
    hide TerminateLink, AbandonLink, UpdateState;
    ProjectTerminate(cfg, s.(ipcp := s.ipcp.(state := Closed)));
    ProjectTerminate(cfg, s.(ip6cp := s.ip6cp.(state := Closed)));
  }

  lemma ProjectLinkTimeout(cfg: Config, s: Session)
    ensures View(OnPadrTimeout(cfg, s)) == Advance(cfg, View(s), LocalStimulus(cfg, s, PadrTimeout))
    ensures View(OnLcpTimeout(cfg, s)) == Advance(cfg, View(s), LocalStimulus(cfg, s, LcpTimeout))
    ensures View(OnLcpEcho(cfg, s)) == Advance(cfg, View(s), LocalStimulus(cfg, s, LcpEcho))
  {
    hide ClearSession, AbandonLink, UpdateState, ClearStimulus;
    ProjectClear(cfg, s);
    ProjectAbandon(cfg, s);
    ProjectMove(s, PppoeInit);
  }

  lemma ProjectAuthTimeout(cfg: Config, s: Session, bit: SendBit)
    ensures View(OnAuthTimeout(cfg, s, bit)) == Advance(cfg, View(s), LocalStimulus(cfg, s, PapTimeout))
  {
    hide ClearSession, ClearStimulus;
    ProjectClear(cfg, s);
  }

  predicate IsTimer(e: Event) {
    e.PadiTimeout? || e.PadrTimeout? || e.LcpTimeout? || e.LcpStartDelay? || e.LcpEcho? || e.PapTimeout?
    || e.ChapTimeout? || e.IpcpTimeout? || e.Ip6cpTimeout? || e.SessionTimeout?
  }

  lemma ProjectTimer(cfg: Config, s: Session, e: Event)
    requires IsTimer(e)
    ensures View(Step(cfg, s, e)) == Advance(cfg, View(s), LocalStimulus(cfg, s, e))
  {
    hide ClearSession, ClearStimulus, Advance, OnPadrTimeout, OnLcpTimeout, OnLcpEcho, OnAuthTimeout, OnIpcpTimeout,
         OnIp6cpTimeout;
    QuietStimulus(cfg, View(s));
    ProjectClear(cfg, s);
    ProjectNcpTimeout(cfg, s);
    ProjectLinkTimeout(cfg, s);
    ProjectAuthTimeout(cfg, s, SendPap);
    ProjectAuthTimeout(cfg, s, SendChap);
  }

  lemma ProjectTransmit(cfg: Config, s: Session)
    ensures View(Transmit(s)) == if Served(s) == Some(SendDiscovery) && s.state.Terminating?
                                 then Move(View(s), Terminated) else View(s)
  {
    hide UpdateState, Served, Move, Bump;
    ProjectMove(s, Terminated);
  }

  lemma ProjectTx(cfg: Config, s: Session)
    ensures View(Transmit(s)) == Advance(cfg, View(s), LocalStimulus(cfg, s, Tx))
  {
    hide Transmit, Served, Move, View;
    ProjectTransmit(cfg, s);
  }

  lemma ForcedStimulus(cfg: Config, c: Control, next: PppState)
    ensures Advance(cfg, c, IpcpForced(next)) == c.(ipcp := next)
    ensures Advance(cfg, c, Ip6cpForced(next)) == c.(ip6cp := next)
  {
  }

  lemma ProjectIpcpCommand(cfg: Config, s: Session)
    ensures View(OpenIpcpNow(s)) == Advance(cfg, View(s), LocalStimulus(cfg, s, OpenIpcp))
    ensures View(CloseIpcpNow(s)) == Advance(cfg, View(s), LocalStimulus(cfg, s, CloseIpcp))
  {
    hide Advance;
    QuietStimulus(cfg, View(s));
    ForcedStimulus(cfg, View(s), Init);
    ForcedStimulus(cfg, View(s), Terminate);
  }

  lemma ProjectIp6cpCommand(cfg: Config, s: Session)
    ensures View(OpenIp6cpNow(s)) == Advance(cfg, View(s), LocalStimulus(cfg, s, OpenIp6cp))
    ensures View(CloseIp6cpNow(s)) == Advance(cfg, View(s), LocalStimulus(cfg, s, CloseIp6cp))
  {
    hide Advance;
    QuietStimulus(cfg, View(s));
    ForcedStimulus(cfg, View(s), Init);
    ForcedStimulus(cfg, View(s), Terminate);
  }

  lemma ProjectStart(cfg: Config, s: Session)
    ensures View(StartSession(s)) == Advance(cfg, View(s), LocalStimulus(cfg, s, Start))
    ensures View(RestartSession(cfg, s)) == Advance(cfg, View(s), LocalStimulus(cfg, s, Restart))
  {
  }

  lemma ProjectCommand(cfg: Config, s: Session, e: Event)
    requires !e.Rx? && !IsTimer(e)
    ensures View(Step(cfg, s, e)) == Advance(cfg, View(s), LocalStimulus(cfg, s, e))
  {
    hide Advance, Transmit, ClearSession, OpenIpcpNow, OpenIp6cpNow, CloseIpcpNow, CloseIp6cpNow, StartSession,
         RestartSession, LocalStimulus, View;
    assert LocalStimulus(cfg, s, Clear) == ClearStimulus(s) by { ClearIsClear(cfg, s); }
    match e
    case Tx => ProjectTx(cfg, s);
    case Clear => ProjectClear(cfg, s);
    case Start => ProjectStart(cfg, s);
    case Restart => ProjectStart(cfg, s);
    case OpenIpcp => ProjectIpcpCommand(cfg, s);
    case CloseIpcp => ProjectIpcpCommand(cfg, s);
    case OpenIp6cp => ProjectIp6cpCommand(cfg, s);
    case CloseIp6cp => ProjectIp6cpCommand(cfg, s);
  }

  lemma ClearIsClear(cfg: Config, s: Session)
    ensures LocalStimulus(cfg, s, Clear) == ClearStimulus(s)
  {
  }

  // Every event moves the skeleton of the session by its stimulus.
  lemma Project(cfg: Config, s: Session, e: Event)
    requires e.Rx? ==> Decoded(e.packet)
    ensures View(Step(cfg, s, e)) == Advance(cfg, View(s), StimulusOf(cfg, s, e))
  {
    hide Advance, LocalStimulus, ReceiveStimulus, View, Receive;
    if e.Rx? {
      ProjectReceive(cfg, s, e.packet);
    } else if IsTimer(e) {
      ProjectTimer(cfg, s, e);
    } else {
      ProjectCommand(cfg, s, e);
    }
  }

  // ---- When a stimulus can occur

  predicate ValidConfig(cfg: Config) {
    cfg.authentication == 0 || IsAuth(cfg.authentication)
  }

  // LCP packets are looked at in this phase.
  predicate Listening(state: SessionState) {
    Rank(PppLink) <= Rank(state) && !state.PppTerminating? && !state.Terminated?
  }

  predicate NcpStep(before: PppState, next: PppState) {
    next == OnConfRequest(before) || next == OnConfAck(before)
  }

  predicate NcpForced(c: Control, before: PppState, next: PppState) {
    || (next.Closed? && c.lcp.Opened?)
    || ((c.state.Established? || c.state.PppNetwork?)
        && ((next.Init? && before.Closed?) || (next.Terminate? && before.Opened?)))
  }

  predicate Enabled(cfg: Config, c: Control, i: Stimulus) {
    match i
    case Quiet => true
    case Offered => c.state.PppoeInit?
    case LinkUp | OfferLost => c.state.PppoeRequest?
    case PeerAgreed(auth) =>
      && Listening(c.state)
      && (if cfg.authentication != 0 then auth == cfg.authentication else auth == c.auth || IsAuth(auth))
    case PeerRefused(auth) => Listening(c.state) && !IsAuth(auth) && (cfg.authentication != 0 ==> auth == 0)
    case OwnAgreed | ProtocolRejected(_) => Listening(c.state)
    case Terminated_ => !c.state.Terminated?
    case Abandoned => Rank(PppoeRequest) <= Rank(c.state) && !c.state.Terminated?
    case LinkTerminated => Rank(PppLink) <= Rank(c.state) && !c.state.Terminated?
    case AuthPassed => c.state.PppAuth?
    case IpcpTo(next) => c.lcp.Opened? && NcpStep(c.ipcp, next)
    case Ip6cpTo(next) => c.lcp.Opened? && NcpStep(c.ip6cp, next)
    case IpcpForced(next) => NcpForced(c, c.ipcp, next)
    case Ip6cpForced(next) => NcpForced(c, c.ip6cp, next)
    case IpcpExpired => c.state.PppNetwork? && !c.ipcp.Opened?
    case Ip6cpExpired => c.state.PppNetwork? && !c.ip6cp.Opened?
    case Started => c.state.Idle?
    case Restarted => c.state.Terminated?
  }

  lemma LcpEnabled(cfg: Config, s: Session, p: LcpPacket)
    requires ValidConfig(cfg) && !s.state.Terminated?
    ensures Enabled(cfg, View(s), LcpStimulus(cfg, s, p))
  {
  }

  lemma ReceiveEnabled(cfg: Config, s: Session, p: Packet)
    requires ValidConfig(cfg)
    ensures Enabled(cfg, View(s), ReceiveStimulus(cfg, s, p))
  {
    hide LcpStimulus, OnConfRequest, OnConfAck, HostUniqMatches;
    if p.Lcp? && !s.state.Terminated? {
      LcpEnabled(cfg, s, p.lcp);
    }
  }

  lemma LocalEnabled(cfg: Config, s: Session, e: Event)
    ensures Enabled(cfg, View(s), LocalStimulus(cfg, s, e))
  {
    hide Served;
  }

  lemma StimulusEnabled(cfg: Config, s: Session, e: Event)
    requires ValidConfig(cfg)
    ensures Enabled(cfg, View(s), StimulusOf(cfg, s, e))
  {
    hide ReceiveStimulus, LocalStimulus, View, Enabled;
    if e.Rx? {
      ReceiveEnabled(cfg, s, e.packet);
    } else {
      LocalEnabled(cfg, s, e);
    }
  }
}
