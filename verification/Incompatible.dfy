/**
 The other half of the two-party theorem: a client that does not agree with what
 the responder offers is never established, in any interleaving.
 */
module Incompatible {
  import opened Types
  import opened ClientSpec
  import opened A10nsp
  import opened Convergence
  import opened Skeleton
  import opened TwoParty
  import NetworkPhase
  import Options

  // ---- What is on the channels, whatever the configuration

  predicate UpAny(p: Packet) {
    match p
    case Discovery(_) => true
    case Lcp(l) => l.code != ECHO_REQUEST && l.code != TERM_REQUEST
    case Pap(_, _, _) => true
    case Chap(_, _, _, _) => false
    case Ipcp(i) => i.code != TERM_REQUEST
    case Ip6cp(i) => i.code != TERM_REQUEST
    case RouterSolicitation => true
  }

  predicate DownAny(peer: Peer, p: Packet) {
    match p
    case Discovery(d) =>
      (d.code == PADO || d.code == PADS) && d.service == SERVICE_NAME
      && (d.code == PADS ==> d.sessionId == peer.sessionId % 65536)
    case Lcp(l) => l.code == CONF_ACK || PapWanted(p)
    case Pap(code, _, _) => code == PAP_ACK
    case Chap(_, _, _, _) => false
    case Ipcp(i) => i.code == CONF_ACK || i.code == CONF_NAK || (i.code == CONF_REQUEST && AcceptsIpcp(i) && Decoded(p))
    case Ip6cp(i) => i.code == CONF_ACK || i.code == CONF_REQUEST
    case RouterSolicitation => false
  }

  lemma AnswersAny(peer: Peer, cookie: seq<Byte>, p: Packet)
    requires UpAny(p)
    ensures forall r <- Replies(peer.sessionId, peer.address, cookie, peer.mac, p) :: DownAny(peer, r)
  {
    if p.Lcp? && p.lcp.code == CONF_REQUEST {
      LcpAnswer(p.lcp);
    }
    if p.Ipcp? {
      NetworkPhase.OwnIpcpRequestOk();
    }
    hide LcpOptionBytes, AddressOption, Options.WellFormed, OwnLcpRequest;
  }

  // ---- What the client may send

  predicate IsReply(code: Byte) {
    code != CONF_REQUEST && code != TERM_REQUEST && code != ECHO_REQUEST
  }

  predicate Codes(c: Session) {
    && SendChap !in c.send
    && (SendLcpRequest in c.send ==> c.lcp.requestCode == CONF_REQUEST)
    && (SendLcpResponse in c.send ==> IsReply(c.lcp.responseCode))
    && (SendIpcpRequest in c.send ==> c.ipcp.requestCode == CONF_REQUEST)
    && (SendIpcpResponse in c.send ==> IsReply(c.ipcp.responseCode))
    && (SendIp6cpRequest in c.send ==> c.ip6cp.requestCode == CONF_REQUEST)
    && (SendIp6cpResponse in c.send ==> IsReply(c.ip6cp.responseCode))
  }

  lemma FramesAny(cfg: Config, c: Session)
    requires Codes(c)
    ensures forall f <- Frame(cfg, c) :: UpAny(f)
  {
    hide LcpOptionBytes, AddressOption;
  }

  lemma CodesTransmit(c: Session)
    requires Codes(c)
    ensures Codes(Transmit(c))
  {
    hide UpdateState, IsReply;
    UpdateKeepsCodes(c, Terminated);
  }

  lemma UpdateKeepsCodes(c: Session, next: SessionState)
    requires Codes(c)
    ensures Codes(UpdateState(c, next)) && UpdateState(c, next).send == c.send
  {
    hide IsReply;
  }

  lemma CodesNetwork(cfg: Config, c: Session)
    requires Codes(c)
    ensures Codes(EnterNetwork(cfg, c))
  {
    hide UpdateState, IsReply;
    UpdateKeepsCodes(c, PppNetwork);
  }

  lemma CodesOpened(cfg: Config, c: Session)
    requires Codes(c)
    ensures Codes(LcpOpened(cfg, c))
  {
    hide UpdateState, IsReply, EnterNetwork;
    var t := c.(lcp := c.lcp.(state := Opened));
    UpdateKeepsCodes(t, PppAuth);
    CodesNetwork(cfg, t);
  }

  lemma CodesCheck(c: Session)
    requires Codes(c)
    ensures Codes(CheckEstablished(c))
  {
    hide UpdateState, IsReply;
    UpdateKeepsCodes(c, Established);
  }

  lemma CodesRespond(c: Session, code: Byte, id: Byte, options: seq<Byte>)
    requires Codes(c) && IsReply(code)
    ensures Codes(LcpRespond(c, code, id, options))
  {
    hide IsReply;
  }

  lemma CodesLcpRequest(cfg: Config, c: Session, p: LcpPacket)
    requires Codes(c) && Options.WellFormed(p.options)
    ensures Codes(RxLcpConfRequest(cfg, c, p))
  {
    var kept := KeptOptions(c.lcp.options, p.options);
    hide LcpOpened, NaksAuth, NegotiatedAuth, SuggestedAuth, Options.LcpReject, KeptOptions, LcpRespond, Codes;
    CodesRespond(c, CONF_REJECT, p.id, Options.LcpReject(p.options));
    var t := c.(auth := NegotiatedAuth(cfg, c, p));
    assert Codes(t) by { CodesDependOn(c, t); }
    CodesRespond(t, CONF_NAK, p.id, SuggestedAuth(cfg));
    var u := c.(auth := NegotiatedAuth(cfg, c, p), link := HeardLink(c.link, p),
                lcp := c.lcp.(options := kept));
    assert Codes(u) by { CodesDependOn(c, u); }
    CodesOpened(cfg, u);
    var v := match c.lcp.state
             case Init => u.(lcp := u.lcp.(state := PeerAck))
             case LocalAck => LcpOpened(cfg, u)
             case _ => u;
    if c.lcp.state.Init? {
      CodesDependOn(u, v);
    }
    CodesRespond(v, CONF_ACK, p.id, kept);
  }

  lemma CodesDependOn(c: Session, d: Session)
    requires Codes(c) && d.send == c.send && d.ipcp == c.ipcp && d.ip6cp == c.ip6cp
    requires d.lcp.requestCode == c.lcp.requestCode && d.lcp.responseCode == c.lcp.responseCode
    ensures Codes(d)
  {
    hide IsReply;
  }

  lemma CodesLcpAck(cfg: Config, c: Session)
    requires Codes(c)
    ensures Codes(RxLcpConfAck(cfg, c))
  {
    hide LcpOpened, IsReply;
    CodesOpened(cfg, c.(lcp := c.lcp.(retries := 0)));
  }

  lemma CodesSet(c: Session, next: PppState)
    requires Codes(c)
    ensures Codes(SetIpcp(c, next)) && Codes(SetIp6cp(c, next))
  {
    hide CheckEstablished, IsReply;
    CodesCheck(c.(ipcp := c.ipcp.(state := next)));
    CodesCheck(c.(ip6cp := c.ip6cp.(state := next)));
  }

  lemma CodesIpcp(cfg: Config, peer: Peer, c: Session, p: Packet)
    requires Codes(c) && p.Ipcp? && DownAny(peer, p)
    ensures Decoded(p) && Codes(RxIpcp(cfg, c, p.ipcp))
  {
    hide SetIpcp, SetIp6cp, OnConfAck, OnConfRequest, KeptOptions, Options.IpcpReject, Options.WellFormed;
    var i := p.ipcp;
    CodesSet(c.(ip := HeardPeer(c.ip, i)), OnConfRequest(c.ipcp.state));
    CodesSet(c.(ipcp := c.ipcp.(retries := 0)), OnConfAck(c.ipcp.state));
  }

  lemma CodesIp6cp(cfg: Config, peer: Peer, c: Session, p: Packet)
    requires Codes(c) && p.Ip6cp? && DownAny(peer, p)
    ensures Codes(RxIp6cp(cfg, c, p.ip6cp))
  {
    hide SetIpcp, SetIp6cp, OnConfAck, OnConfRequest, KeptOptions;
    var i := p.ip6cp;
    CodesSet(c.(ip6 := HeardPeer6(c.ip6, i)), OnConfRequest(c.ip6cp.state));
    CodesSet(c.(ip6cp := c.ip6cp.(retries := 0)), OnConfAck(c.ip6cp.state));
  }

  lemma CodesDiscovery(cfg: Config, peer: Peer, c: Session, d: DiscoveryPacket)
    requires Codes(c) && DownAny(peer, Discovery(d))
    ensures Codes(RxDiscovery(cfg, c, d))
  {
    hide HostUniqMatches, IsReply;
  }

  lemma CodesLcp(cfg: Config, peer: Peer, c: Session, p: Packet)
    requires Codes(c) && p.Lcp? && DownAny(peer, p)
    ensures Decoded(p) && Codes(RxLcp(cfg, c, p.lcp))
  {
    hide RxLcpConfRequest, RxLcpConfAck, Codes, Options.WellFormed;
    if p.lcp.code == CONF_ACK {
      CodesLcpAck(cfg, c);
    } else {
      CodesLcpRequest(cfg, c, p.lcp);
    }
  }

  lemma CodesPap(cfg: Config, c: Session, l2tp: bool)
    requires Codes(c)
    ensures Codes(RxPap(cfg, c, PAP_ACK, l2tp))
  {
    hide EnterNetwork, IsReply;
    CodesNetwork(cfg, c.(login := c.login.(l2tp := c.login.l2tp || l2tp)));
  }

  lemma CodesReceive(cfg: Config, peer: Peer, c: Session, p: Packet)
    requires Codes(c) && DownAny(peer, p)
    ensures Decoded(p) && Codes(Receive(cfg, c, p))
  {
    hide Codes, RxIpcp, RxIp6cp, RxLcp, RxDiscovery, RxPap, RxChap;
    match p
    case Discovery(d) => CodesDiscovery(cfg, peer, c, d);
    case Lcp(_) => CodesLcp(cfg, peer, c, p);
    case Pap(_, _, l2tp) => CodesPap(cfg, c, l2tp);
    case Ipcp(_) => CodesIpcp(cfg, peer, c, p);
    case Ip6cp(_) => CodesIp6cp(cfg, peer, c, p);
  }

  // ---- Where an incompatible client is stuck

  // Before the network phase an enabled NCP is closed or disabled, a disabled one stays so.
  predicate Waiting(cfg: Config, c: Control) {
    && (c.ipcp.Disabled? || (c.ipcp.Closed? && cfg.ipcpEnable))
    && (c.ip6cp.Disabled? || (c.ip6cp.Closed? && cfg.ip6cpEnable))
  }

  predicate Stuck(cfg: Config, peer: Peer, service: seq<Byte>, c: Session) {
    var v := View(c);
    if service != [] && service != SERVICE_NAME then v.state.PppoeInit? && v.lcp.Closed? && c.pppoe.service == service
    else if peer.sessionId % 65536 == 0 then (v.state.PppoeInit? || v.state.PppoeRequest?) && v.lcp.Closed?
    else if cfg.authentication != 0 && cfg.authentication != PROTOCOL_PAP then
      || ((v.state.PppoeInit? || v.state.PppoeRequest?) && v.lcp.Closed?)
      || (v.state.PppLink? && (v.lcp.Init? || v.lcp.LocalAck?))
    else
      match v.state
      case PppoeInit | PppoeRequest => v.lcp.Closed? && Waiting(cfg, v)
      case PppLink => (v.lcp.Init? || v.lcp.LocalAck? || v.lcp.PeerAck?) && Waiting(cfg, v)
      case PppAuth => v.lcp.Opened? && Waiting(cfg, v)
      case PppNetwork =>
        if cfg.ipcpEnable && !cfg.ipcpGlobal then v.lcp.Opened? && v.ipcp.Init?
        else if cfg.ip6cpEnable && !cfg.ip6cpGlobal then v.lcp.Opened? && v.ip6cp.Init?
        else v.lcp.Opened? && v.ipcp.Disabled? && v.ip6cp.Disabled?
      case _ => false
  }

  // The stimuli that occur, and what is known of them.
  lemma DeliveredStimulus(cfg: Config, peer: Peer, c: Session, p: Packet)
    requires DownAny(peer, p) && !c.state.Idle? && !c.state.Terminated? && !c.state.PppTerminating?
    ensures var i := ReceiveStimulus(cfg, c, p);
      && (i.Quiet? || i.Offered? || i.LinkUp? || i.PeerAgreed? || i.PeerRefused? || i.OwnAgreed? || i.AuthPassed?
          || i.IpcpTo? || i.Ip6cpTo?)
      && (i.Offered? ==> c.state.PppoeInit? && (c.pppoe.service == [] || c.pppoe.service == SERVICE_NAME))
      && (i.LinkUp? ==> c.state.PppoeRequest? && peer.sessionId % 65536 != 0)
      && (i.PeerAgreed? || i.PeerRefused? || i.OwnAgreed? ==> Rank(PppLink) <= Rank(c.state))
      && (i.PeerAgreed? ==> cfg.authentication == 0 || cfg.authentication == PROTOCOL_PAP)
      && (i.AuthPassed? ==> c.state.PppAuth?)
      && (i.IpcpTo? ==> c.lcp.state.Opened? && cfg.ipcpGlobal && NcpStep(c.ipcp.state, i.next))
      && (i.Ip6cpTo? ==> c.lcp.state.Opened? && cfg.ip6cpGlobal && NcpStep(c.ip6cp.state, i.next))
  {
    hide NegotiatedAuth, OnConfAck, OnConfRequest, HostUniqMatches, Options.WellFormed, AcceptsIpcp;
  }

  lemma StuckMoves(cfg: Config, peer: Peer, c: Session, d: Session, i: Stimulus, service: seq<Byte>)
    requires !Compatible(cfg, peer, service) && Stuck(cfg, peer, service, c) && View(d) == Advance(cfg, View(c), i)
    requires i.Quiet? || i.Offered? || i.LinkUp? || i.PeerAgreed? || i.PeerRefused? || i.OwnAgreed? || i.AuthPassed?
             || i.IpcpTo? || i.Ip6cpTo?
    requires i.Offered? ==> c.state.PppoeInit? && (c.pppoe.service == [] || c.pppoe.service == SERVICE_NAME)
    requires i.LinkUp? ==> c.state.PppoeRequest? && peer.sessionId % 65536 != 0
    requires i.PeerAgreed? || i.PeerRefused? || i.OwnAgreed? ==> Rank(PppLink) <= Rank(c.state)
    requires i.PeerAgreed? ==> cfg.authentication == 0 || cfg.authentication == PROTOCOL_PAP
    requires i.AuthPassed? ==> c.state.PppAuth?
    requires i.IpcpTo? ==> c.lcp.state.Opened? && cfg.ipcpGlobal && NcpStep(c.ipcp.state, i.next)
    requires i.Ip6cpTo? ==> c.lcp.state.Opened? && cfg.ip6cpGlobal && NcpStep(c.ip6cp.state, i.next)
    requires service != [] && service != SERVICE_NAME ==> d.pppoe.service == c.pppoe.service
    ensures Stuck(cfg, peer, service, d)
  {
  }

  ghost predicate StuckInv(cfg: Config, peer: Peer, service: seq<Byte>, w: World) {
    && Codes(w.c) && Stuck(cfg, peer, service, w.c)
    && (forall p <- w.up :: UpAny(p))
    && (forall p <- w.down :: DownAny(peer, p))
  }

  lemma StuckBegins(cfg: Config, peer: Peer, w: World)
    requires Begins(cfg, w) && !Compatible(cfg, peer, w.c.pppoe.service)
    ensures StuckInv(cfg, peer, w.c.pppoe.service, w)
  {
  }

  lemma StuckPhase(cfg: Config, peer: Peer, service: seq<Byte>, c: Session)
    requires Stuck(cfg, peer, service, c)
    ensures InSetup(c.state)
  {
  }

  lemma StuckService(cfg: Config, peer: Peer, service: seq<Byte>, c: Session, p: Packet)
    requires Stuck(cfg, peer, service, c) && service != [] && service != SERVICE_NAME && DownAny(peer, p) && Decoded(p)
    ensures Receive(cfg, c, p).pppoe.service == c.pppoe.service
  {
    hide HostUniqMatches, Options.WellFormed, RxLcpConfRequest;
  }

  lemma StuckDeliver(cfg: Config, peer: Peer, service: seq<Byte>, c: Session, p: Packet)
    requires !Compatible(cfg, peer, service) && Codes(c) && Stuck(cfg, peer, service, c) && DownAny(peer, p)
    ensures Decoded(p)
    ensures var d := Receive(cfg, c, p); Codes(d) && Stuck(cfg, peer, service, d)
  {
    StuckPhase(cfg, peer, service, c);
    hide Codes, Stuck, DownAny, Receive, ReceiveStimulus, Advance, Compatible, NcpStep, Decoded;
    CodesReceive(cfg, peer, c, p);
    ProjectReceive(cfg, c, p);
    DeliveredStimulus(cfg, peer, c, p);
    if service != [] && service != SERVICE_NAME {
      StuckService(cfg, peer, service, c, p);
    }
    StuckMoves(cfg, peer, c, Receive(cfg, c, p), ReceiveStimulus(cfg, c, p), service);
  }

  lemma StuckTransmit(cfg: Config, peer: Peer, service: seq<Byte>, c: Session)
    requires Codes(c) && Stuck(cfg, peer, service, c)
    ensures Codes(Transmit(c)) && Stuck(cfg, peer, service, Transmit(c))
  {
    StuckPhase(cfg, peer, service, c);
    TransmitService(c);
    hide Codes, Transmit, Served, Move;
    CodesTransmit(c);
    ProjectTransmit(cfg, c);
  }

  lemma TransmitService(c: Session)
    ensures Transmit(c).pppoe.service == c.pppoe.service
  {
    hide Served;
  }

  lemma StuckStep(cfg: Config, peer: Peer, service: seq<Byte>, w: World, a: Action)
    requires !Compatible(cfg, peer, service) && StuckInv(cfg, peer, service, w) && Can(w, a)
    ensures StuckInv(cfg, peer, service, Do(cfg, peer, w, a))
  {
    hide Codes, Stuck, UpAny, DownAny, Receive, Transmit, Frame, Replies, Decoded, Compatible, Naks;
    match a
    case Send =>
      StuckTransmit(cfg, peer, service, w.c);
      FramesAny(cfg, w.c);
    case Answer(cookie) => AnswersAny(peer, cookie, w.up[0]);
    case Deliver => StuckDeliver(cfg, peer, service, w.c, w.down[0]);
  }

  lemma StuckPlay(cfg: Config, peer: Peer, service: seq<Byte>, w: World, actions: seq<Action>)
    requires !Compatible(cfg, peer, service) && StuckInv(cfg, peer, service, w) && Legal(cfg, peer, w, actions)
    ensures StuckInv(cfg, peer, service, Play(cfg, peer, w, actions))
    decreases |actions|
  {
    hide Do, StuckInv, Compatible;
    if actions != [] {
      StuckStep(cfg, peer, service, w, actions[0]);
      StuckPlay(cfg, peer, service, Do(cfg, peer, w, actions[0]), actions[1..]);
    }
  }

  // An incompatible client is never established.
  lemma NeverEstablished(cfg: Config, peer: Peer, w: World, actions: seq<Action>)
    requires Begins(cfg, w) && !Compatible(cfg, peer, w.c.pppoe.service) && Legal(cfg, peer, w, actions)
    ensures !Play(cfg, peer, w, actions).c.state.Established?
  {
    hide Do;
    StuckBegins(cfg, peer, w);
    StuckPlay(cfg, peer, w.c.pppoe.service, w, actions);
    StuckPhase(cfg, peer, w.c.pppoe.service, Play(cfg, peer, w, actions).c);
  }

  // The exact condition: for a run that has come to rest, the session is
  // established if and only if client and responder are compatible.
  lemma EstablishedAtRestIff(cfg: Config, peer: Peer, w: World, actions: seq<Action>)
    requires Begins(cfg, w) && peer.address != 0 && Legal(cfg, peer, w, actions)
    requires Quiescent(Play(cfg, peer, w, actions))
    ensures Play(cfg, peer, w, actions).c.state.Established? <==> Compatible(cfg, peer, w.c.pppoe.service)
  {
    hide Do, Compatible, Begins, Play;
    if Compatible(cfg, peer, w.c.pppoe.service) {
      Converges(cfg, peer, w, actions);
    } else {
      NeverEstablished(cfg, peer, w, actions);
    }
  }
}
