/**
 What the client asks on its own account. This module says for every event which
 transmissions become pending and which are wiped, what the pending request of each
 control protocol is, and how identifiers and attempts are counted.
 */
module Requests {
  import opened Types
  import opened ClientSpec
  import opened Skeleton
  import opened ClientRuns
  import opened Responses
  import Options

  // ---- What happens in an event

  // The client gives up the link and sends a PADT.
  predicate GivesUpLink(cfg: Config, s: Session, e: Event) {
    match e
    case Rx(p) => Attentive(s) && p.Lcp? && p.lcp.code == TERM_ACK && Rank(PppLink) <= Rank(s.state)
    case LcpTimeout =>
      || (s.state.PppLink? && !s.lcp.state.Opened? && s.lcp.retries > cfg.lcpRetry)
      || (s.state.PppTerminating? && s.lcp.retries > 3)
    case LcpEcho => s.state.Established? && s.lcp.retries > cfg.keepaliveRetry
    case Clear => s.state.PppoeRequest? || s.state.PppLink?
    case _ => false
  }

  // The client asks the peer to terminate the link, or asks again.
  predicate AsksTermination(cfg: Config, s: Session, e: Event) {
    match e
    case Rx(p) => Attentive(s) && LoginFails(s, p)
    case LcpTimeout => s.state.PppTerminating? && s.lcp.retries <= 3
    case PapTimeout => s.state.PppAuth? && s.login.retries > cfg.authRetry
    case ChapTimeout => s.state.PppAuth? && s.login.retries > cfg.authRetry
    case IpcpTimeout =>
      s.state.PppNetwork? && !s.ipcp.state.Opened? && s.ipcp.retries > cfg.ipcpRetry && s.ip6cp.state.Closed?
    case Ip6cpTimeout =>
      s.state.PppNetwork? && !s.ip6cp.state.Opened? && s.ip6cp.retries > cfg.ip6cpRetry && s.ipcp.state.Closed?
    case SessionTimeout => s.state.Established?
    case Clear => Rank(PppAuth) <= Rank(s.state) <= Rank(PppTerminating)
    case _ => false
  }

  predicate HearsLcp(s: Session, e: Event, code: Byte) {
    e.Rx? && Attentive(s) && Listening(s.state) && e.packet.Lcp? && e.packet.lcp.code == code
  }

  predicate HearsIpcp(cfg: Config, s: Session, e: Event, code: Byte) {
    e.Rx? && Attentive(s) && s.lcp.state.Opened? && cfg.ipcpGlobal && e.packet.Ipcp? && e.packet.ipcp.code == code
  }

  predicate HearsIp6cp(cfg: Config, s: Session, e: Event, code: Byte) {
    e.Rx? && Attentive(s) && s.lcp.state.Opened? && cfg.ip6cpGlobal && e.packet.Ip6cp? && e.packet.ip6cp.code == code
  }

  predicate GetsOffer(cfg: Config, s: Session, e: Event) {
    && e.Rx? && s.state.PppoeInit? && e.packet.Discovery? && e.packet.d.code == PADO
    && (s.pppoe.service == [] || e.packet.d.service == s.pppoe.service)
    && (cfg.hostUniq == 0 || e.packet.d.hostUniq == Some(cfg.hostUniq))
  }

  predicate GetsSession(cfg: Config, s: Session, e: Event) {
    && e.Rx? && s.state.PppoeRequest? && e.packet.Discovery? && e.packet.d.code == PADS
    && e.packet.d.sessionId > 0 && e.packet.d.service == s.pppoe.service
    && (cfg.hostUniq == 0 || e.packet.d.hostUniq == Some(cfg.hostUniq))
  }

  predicate StartsNetwork(cfg: Config, s: Session, e: Event) {
    e.Rx? && Attentive(s) && EntersNetwork(cfg, s, e.packet)
  }

  // LCP opens with PAP.
  predicate StartsPap(cfg: Config, s: Session, e: Event) {
    || (HearsLcp(s, e, CONF_ACK) && s.lcp.state.PeerAck? && s.auth == PROTOCOL_PAP)
    || (HearsLcp(s, e, CONF_REQUEST) && s.lcp.state.LocalAck? && AcceptsLcp(cfg, e.packet.lcp)
        && NegotiatedAuth(cfg, s, e.packet.lcp) == PROTOCOL_PAP)
  }

  predicate OpensIp6cp(cfg: Config, s: Session, e: Event) {
    || (HearsIp6cp(cfg, s, e, CONF_ACK) && s.ip6cp.state.PeerAck?)
    || (HearsIp6cp(cfg, s, e, CONF_REQUEST) && s.ip6cp.state.LocalAck?)
  }

  predicate InNetwork(s: Session) {
    s.state.PppNetwork? || s.state.Established?
  }

  // ---- Which transmissions become pending

  predicate IsResponse(b: SendBit) {
    b.SendLcpResponse? || b.SendIpcpResponse? || b.SendIp6cpResponse?
  }

  predicate Triggers(cfg: Config, s: Session, e: Event, b: SendBit) {
    match b
    case SendDiscovery =>
      || GetsOffer(cfg, s, e) || GivesUpLink(cfg, s, e) || (e.Start? && s.state.Idle?)
      || (e.PadiTimeout? && s.state.PppoeInit?) || (e.PadrTimeout? && s.state.PppoeRequest?)
    case SendLcpRequest =>
      || GetsSession(cfg, s, e) || HearsLcp(s, e, CONF_NAK) || HearsLcp(s, e, TERM_REQUEST)
      || AsksTermination(cfg, s, e) || e.LcpStartDelay?
      || (e.LcpEcho? && s.state.Established? && s.lcp.retries <= cfg.keepaliveRetry)
      || (e.LcpTimeout? && s.state.PppLink? && !s.lcp.state.Opened? && s.lcp.retries <= cfg.lcpRetry)
    case SendPap =>
      StartsPap(cfg, s, e) || (e.PapTimeout? && s.state.PppAuth? && s.login.retries <= cfg.authRetry)
    case SendChap =>
      || (e.Rx? && s.state.PppAuth? && e.packet.Chap? && e.packet.chapCode == CHAP_CHALLENGE && e.packet.challengeLen > 0)
      || (e.ChapTimeout? && s.state.PppAuth? && s.login.retries <= cfg.authRetry)
    case SendIpcpRequest =>
      || (StartsNetwork(cfg, s, e) && cfg.ipcpEnable)
      || HearsIpcp(cfg, s, e, CONF_NAK) || (HearsIpcp(cfg, s, e, CONF_REJECT) && !cfg.ipcpRejectIgnore)
      || (e.IpcpTimeout? && s.state.PppNetwork? && !s.ipcp.state.Opened? && s.ipcp.retries <= cfg.ipcpRetry)
      || (e.OpenIpcp? && InNetwork(s) && s.ipcp.state.Closed?)
      || (e.CloseIpcp? && InNetwork(s) && s.ipcp.state.Opened?)
    case SendIp6cpRequest =>
      || (StartsNetwork(cfg, s, e) && cfg.ip6cpEnable)
      || HearsIp6cp(cfg, s, e, CONF_NAK)
      || (e.Ip6cpTimeout? && s.state.PppNetwork? && !s.ip6cp.state.Opened? && s.ip6cp.retries <= cfg.ip6cpRetry)
      || (e.OpenIp6cp? && InNetwork(s) && s.ip6cp.state.Closed?)
      || (e.CloseIp6cp? && InNetwork(s) && s.ip6cp.state.Opened?)
    case SendRs => OpensIp6cp(cfg, s, e) && !s.login.l2tp
    case _ => false
  }

  // Events after which nothing is pending but what they ask for themselves.
  predicate Wipes(cfg: Config, s: Session, e: Event) {
    || GivesUpLink(cfg, s, e)
    || (e.Rx? && Attentive(s) && Overrides(cfg, s, e.packet))
    || (e.Start? && s.state.Idle?)
    || (e.PadiTimeout? && s.state.PppoeInit?) || (e.PadrTimeout? && s.state.PppoeRequest?)
  }

  predicate StaysPending(cfg: Config, s: Session, e: Event, b: SendBit) {
    Triggers(cfg, s, e, b) || (b in s.send && !Wipes(cfg, s, e) && !(e.Tx? && Served(s) == Some(b)))
  }

  lemma SendState(s: Session, next: SessionState)
    ensures UpdateState(s, next).send == s.send
  {
  }

  lemma MaskPhases(s: Session, next: SessionState)
    ensures UpdateState(s, next).send == s.send && CheckEstablished(s).send == s.send
    ensures AbandonLink(s).send == {SendDiscovery} && TerminateLink(s).send == s.send + {SendLcpRequest}
  {
    hide UpdateState, CloseNcp;
    SendState(s, next);
    SendState(s, Established);
    SendState(CloseNcps(s), Terminating);
    SendState(s, PppTerminating);
  }

  // The part of the mask that concerns requests.
  lemma MaskNetwork(cfg: Config, s: Session, b: SendBit)
    requires !IsResponse(b)
    ensures b in EnterNetwork(cfg, s).send <==>
      b in s.send || (b == SendIpcpRequest && cfg.ipcpEnable) || (b == SendIp6cpRequest && cfg.ip6cpEnable)
  {
    hide UpdateState;
    SendState(s, PppNetwork);
  }

  lemma MaskOpened(cfg: Config, s: Session, b: SendBit)
    requires !IsResponse(b)
    ensures b in LcpOpened(cfg, s).send <==>
      || b in s.send || (b == SendPap && s.auth == PROTOCOL_PAP)
      || (!IsAuth(s.auth) && ((b == SendIpcpRequest && cfg.ipcpEnable) || (b == SendIp6cpRequest && cfg.ip6cpEnable)))
  {
    hide UpdateState, EnterNetwork;
    var t := s.(lcp := s.lcp.(state := Opened));
    SendState(t, PppAuth);
    MaskNetwork(cfg, t, b);
  }

  lemma MaskClear(s: Session)
    ensures ClearSession(s).send
         == if s.state.PppoeRequest? || s.state.PppLink? then {SendDiscovery}
            else if Rank(PppAuth) <= Rank(s.state) <= Rank(PppTerminating) then s.send + {SendLcpRequest} else s.send
  {
    hide UpdateState, AbandonLink, TerminateLink;
    MaskPhases(s, Terminated);
  }

  lemma MaskDiscovery(cfg: Config, s: Session, d: DiscoveryPacket, b: SendBit)
    requires !IsResponse(b) && Attentive(s)
    ensures b in RxDiscovery(cfg, s, d).send <==> StaysPending(cfg, s, Rx(Discovery(d)), b)
  {
    hide UpdateState;
  }

  lemma MaskConfRequest(cfg: Config, s: Session, p: LcpPacket, b: SendBit)
    requires !IsResponse(b) && Decoded(Lcp(p)) && Attentive(s) && Listening(s.state) && p.code == CONF_REQUEST
    ensures b in RxLcpConfRequest(cfg, s, p).send <==> StaysPending(cfg, s, Rx(Lcp(p)), b)
  {
    hide Options.LcpReject, SuggestedAuth, Options.WellFormed, NaksAuth, NegotiatedAuth, LcpOpened;
    var t := s.(auth := NegotiatedAuth(cfg, s, p), link := HeardLink(s.link, p),
                lcp := s.lcp.(options := KeptOptions(s.lcp.options, p.options)));
    MaskOpened(cfg, t, b);
  }

  lemma MaskConfAck(cfg: Config, s: Session, p: LcpPacket, b: SendBit)
    requires !IsResponse(b) && Attentive(s) && Listening(s.state) && p.code == CONF_ACK
    ensures b in RxLcpConfAck(cfg, s).send <==> StaysPending(cfg, s, Rx(Lcp(p)), b)
  {
    hide LcpOpened, Served;
    MaskOpened(cfg, s.(lcp := s.lcp.(retries := 0)), b);
  }

  lemma MaskTermRequest(s: Session, p: LcpPacket)
    ensures RxLcpTermRequest(s, p).send
         == if s.state.PppTerminating? then {SendLcpResponse} else {SendLcpResponse, SendLcpRequest}
  {
  }

  // The other codes ask for a response at most, or for a request.
  lemma MaskOtherLcp(cfg: Config, s: Session, p: LcpPacket)
    requires Decoded(Lcp(p)) && Attentive(s) && p.code != CONF_REQUEST && p.code != CONF_ACK
    ensures var t := RxLcp(cfg, s, p);
      if p.code == TERM_REQUEST && Rank(PppLink) <= Rank(s.state) then
        t.send == if s.state.PppTerminating? then {SendLcpResponse} else {SendLcpResponse, SendLcpRequest}
      else if p.code == TERM_ACK && Rank(PppLink) <= Rank(s.state) then t.send == {SendDiscovery}
      else if p.code == CONF_NAK && Listening(s.state) then t.send == s.send + {SendLcpRequest}
      else s.send <= t.send <= s.send + {SendLcpResponse}
  {
    hide Options.LcpReject, Options.WellFormed, Truncated, Bytes32, RxLcpConfRequest, RxLcpConfAck, CheckEstablished, AbandonLink,
         UpdateState, RxLcpTermRequest;
    MaskTermRequest(s, p);
    MaskPhases(s.(lcp := s.lcp.(retries := 0)), Idle);
    MaskPhases(s.(ipcp := s.ipcp.(state := PppState.Rejected)), Idle);
    MaskPhases(s.(ip6cp := s.ip6cp.(state := PppState.Rejected)), Idle);
    MaskPhases(s, Idle);
  }

  lemma MaskLcp(cfg: Config, s: Session, p: LcpPacket, b: SendBit)
    requires !IsResponse(b) && Decoded(Lcp(p)) && Attentive(s)
    ensures b in RxLcp(cfg, s, p).send <==> StaysPending(cfg, s, Rx(Lcp(p)), b)
  {
    hide Options.WellFormed, NaksAuth, NegotiatedAuth, RxLcpConfRequest, RxLcpConfAck, IsAuth, RxLcpVendor, RxLcpConfNak,
         RxLcpTermRequest, AbandonLink, RxLcpProtReject, LcpRespond, Truncated, Served;
    if p.code == CONF_REQUEST {
      if Listening(s.state) {
        MaskConfRequest(cfg, s, p, b);
      }
    } else if p.code == CONF_ACK {
      if Listening(s.state) {
        MaskConfAck(cfg, s, p, b);
      }
    } else {
      MaskOtherLcp(cfg, s, p);
    }
  }

  lemma MaskLogin(cfg: Config, s: Session, p: Packet, b: SendBit)
    requires !IsResponse(b) && Attentive(s) && (p.Pap? || p.Chap? || p.RouterSolicitation?)
    ensures b in Receive(cfg, s, p).send <==> StaysPending(cfg, s, Rx(p), b)
  {
    hide EnterNetwork, TerminateLink, Served;
    MaskPhases(s, Idle);
    MaskNetwork(cfg, s.(login := s.login.(l2tp := true)), b);
    MaskNetwork(cfg, s.(login := s.login.(l2tp := false)), b);
  }

  lemma MaskSetIp6cp(s: Session, next: PppState)
    ensures SetIpcp(s, next).send == s.send
    ensures SetIp6cp(s, next).send
         == if next.Opened? && !s.ip6cp.state.Opened? && !s.login.l2tp then s.send + {SendRs} else s.send
  {
  }

  lemma MaskIpcp(cfg: Config, s: Session, p: IpcpPacket, b: SendBit)
    requires !IsResponse(b) && Decoded(Ipcp(p)) && Attentive(s)
    ensures b in RxIpcp(cfg, s, p).send <==> StaysPending(cfg, s, Rx(Ipcp(p)), b)
  {
    hide Options.IpcpReject, Options.WellFormed, Suggested, HeardPeer, Net16, KeptOptions, SetIpcp, Served;
    MaskSetIp6cp(s.(ip := HeardPeer(s.ip, p)), OnConfRequest(s.ipcp.state));
    MaskSetIp6cp(s.(ipcp := s.ipcp.(retries := 0)), OnConfAck(s.ipcp.state));
  }

  lemma MaskIp6cp(cfg: Config, s: Session, p: Ip6cpPacket, b: SendBit)
    requires !IsResponse(b) && Attentive(s)
    ensures b in RxIp6cp(cfg, s, p).send <==> StaysPending(cfg, s, Rx(Ip6cp(p)), b)
  {
    hide Net16, KeptOptions, SetIp6cp, HeardPeer6, Served;
    MaskSetIp6cp(s.(ip6 := HeardPeer6(s.ip6, p)), OnConfRequest(s.ip6cp.state));
    MaskSetIp6cp(s.(ip6cp := s.ip6cp.(retries := 0)), OnConfAck(s.ip6cp.state));
  }

  lemma MaskTransmit(s: Session, b: SendBit)
    ensures b in Transmit(s).send <==> b in s.send && Served(s) != Some(b)
  {
  }

  predicate Timer(e: Event) {
    || e.LcpTimeout? || e.LcpEcho? || e.LcpStartDelay? || e.Clear? || e.SessionTimeout? || e.PapTimeout? || e.ChapTimeout?
    || e.IpcpTimeout? || e.Ip6cpTimeout?
  }

  // The transmission that a timer asks for again.
  function Again(cfg: Config, s: Session, e: Event): set<SendBit> {
    match e
    case LcpTimeout => if s.state.PppLink? && !s.lcp.state.Opened? && s.lcp.retries <= cfg.lcpRetry then {SendLcpRequest} else {}
    case LcpEcho => if s.state.Established? && s.lcp.retries <= cfg.keepaliveRetry then {SendLcpRequest} else {}
    case LcpStartDelay => {SendLcpRequest}
    case PapTimeout => if s.state.PppAuth? && s.login.retries <= cfg.authRetry then {SendPap} else {}
    case ChapTimeout => if s.state.PppAuth? && s.login.retries <= cfg.authRetry then {SendChap} else {}
    case IpcpTimeout =>
      if s.state.PppNetwork? && !s.ipcp.state.Opened? && s.ipcp.retries <= cfg.ipcpRetry then {SendIpcpRequest} else {}
    case Ip6cpTimeout =>
      if s.state.PppNetwork? && !s.ip6cp.state.Opened? && s.ip6cp.retries <= cfg.ip6cpRetry then {SendIp6cpRequest} else {}
    case _ => {}
  }

  lemma NcpTimerMask(cfg: Config, s: Session, e: Event)
    requires e.IpcpTimeout? || e.Ip6cpTimeout?
    ensures Step(cfg, s, e).send
         == if GivesUpLink(cfg, s, e) then {SendDiscovery}
            else if AsksTermination(cfg, s, e) then s.send + {SendLcpRequest}
            else s.send + Again(cfg, s, e)
  {
    hide ClearSession;
    MaskClear(s.(ipcp := s.ipcp.(state := Closed)));
    MaskClear(s.(ip6cp := s.ip6cp.(state := Closed)));
  }

  lemma LcpTimerMask(cfg: Config, s: Session, e: Event)
    requires e.LcpTimeout? || e.LcpEcho? || e.LcpStartDelay?
    ensures Step(cfg, s, e).send
         == if GivesUpLink(cfg, s, e) then {SendDiscovery}
            else if AsksTermination(cfg, s, e) then s.send + {SendLcpRequest}
            else s.send + Again(cfg, s, e)
  {
    hide ClearSession, AbandonLink;
    MaskClear(s);
    MaskPhases(s, Idle);
  }

  lemma TimerMask(cfg: Config, s: Session, e: Event)
    requires Timer(e)
    ensures Step(cfg, s, e).send
         == if GivesUpLink(cfg, s, e) then {SendDiscovery}
            else if AsksTermination(cfg, s, e) then s.send + {SendLcpRequest}
            else s.send + Again(cfg, s, e)
  {
    hide ClearSession, OnLcpTimeout, OnLcpEcho, OnIpcpTimeout, OnIp6cpTimeout;
    if e.IpcpTimeout? || e.Ip6cpTimeout? {
      NcpTimerMask(cfg, s, e);
    } else if e.LcpTimeout? || e.LcpEcho? || e.LcpStartDelay? {
      LcpTimerMask(cfg, s, e);
    } else {
      MaskClear(s);
    }
  }

  lemma NotReceived(cfg: Config, s: Session, e: Event)
    requires !e.Rx?
    ensures !StartsPap(cfg, s, e) && !StartsNetwork(cfg, s, e) && !OpensIp6cp(cfg, s, e)
    ensures !GetsOffer(cfg, s, e) && !GetsSession(cfg, s, e)
    ensures forall code :: !HearsLcp(s, e, code) && !HearsIpcp(cfg, s, e, code) && !HearsIp6cp(cfg, s, e, code)
  {
  }

  lemma MaskTimers(cfg: Config, s: Session, e: Event, b: SendBit)
    requires !IsResponse(b) && Timer(e)
    ensures b in Step(cfg, s, e).send <==> StaysPending(cfg, s, e, b)
  {
    hide Step, Served, HearsLcp, HearsIpcp, HearsIp6cp, StartsPap, StartsNetwork, OpensIp6cp, GetsOffer, GetsSession, GivesUpLink,
         AsksTermination;
    NotReceived(cfg, s, e);
    TimerMask(cfg, s, e);
    NotBoth(cfg, s, e);
  }

  lemma NotBoth(cfg: Config, s: Session, e: Event)
    ensures GivesUpLink(cfg, s, e) || AsksTermination(cfg, s, e) ==> Again(cfg, s, e) == {}
    ensures GivesUpLink(cfg, s, e) ==> !AsksTermination(cfg, s, e)
  {
  }

  lemma MaskLocal(cfg: Config, s: Session, e: Event, b: SendBit)
    requires !IsResponse(b) && !e.Rx? && !Timer(e)
    ensures b in Step(cfg, s, e).send <==> StaysPending(cfg, s, e, b)
  {
    hide UpdateState, Transmit, Served, HearsLcp, HearsIpcp, HearsIp6cp, StartsPap, StartsNetwork, OpensIp6cp, GetsOffer, GetsSession;
    NotReceived(cfg, s, e);
    SendState(s, PppoeInit);
    MaskTransmit(s, b);
  }

  // For every event and state: a request, a login or a router solicitation is pending
  // afterwards exactly when the event asks for it, or it was pending and neither was
  // sent nor wiped. With Responses.BitStep this is the whole send mask.
  lemma MaskStep(cfg: Config, s: Session, e: Event, b: SendBit)
    requires Proper(e) && !IsResponse(b)
    ensures b in Step(cfg, s, e).send <==> StaysPending(cfg, s, e, b)
  {
    hide RxLcp, RxDiscovery, RxPap, RxChap, RxIpcp, RxIp6cp, EntersNetwork, Overrides, Options.WellFormed;
    if Timer(e) {
      MaskTimers(cfg, s, e, b);
    } else if !e.Rx? {
      MaskLocal(cfg, s, e, b);
    } else if Attentive(s) {
      match e.packet
      case Discovery(d) => MaskDiscovery(cfg, s, d, b);
      case Lcp(l) => MaskLcp(cfg, s, l, b);
      case Ipcp(i) => MaskIpcp(cfg, s, i, b);
      case Ip6cp(i) => MaskIp6cp(cfg, s, i, b);
      case _ => MaskLogin(cfg, s, e.packet, b);
    }
  }

  // ---- What the pending request is

  predicate Refused(cfg: Config, s: Session, e: Event) {
    e.Rx? && Attentive(s) && Refuses(cfg, s, e.packet)
  }

  // The code that an event gives to the request of a protocol.
  function NewCode(cfg: Config, s: Session, w: Proto, e: Event): Option<Byte> {
    match w
    case ForLcp =>
      if GetsSession(cfg, s, e) || HearsLcp(s, e, CONF_NAK) || e.LcpStartDelay? then Some(CONF_REQUEST)
      else if HearsLcp(s, e, TERM_REQUEST) || AsksTermination(cfg, s, e) then Some(TERM_REQUEST)
      else if e.LcpEcho? && s.state.Established? && s.lcp.retries <= cfg.keepaliveRetry then Some(ECHO_REQUEST)
      else if e.Restart? && s.state.Terminated? then Some(0)
      else None
    case ForIpcp =>
      if (StartsNetwork(cfg, s, e) && cfg.ipcpEnable) || HearsIpcp(cfg, s, e, CONF_NAK)
         || (HearsIpcp(cfg, s, e, CONF_REJECT) && !cfg.ipcpRejectIgnore)
         || (e.OpenIpcp? && InNetwork(s) && s.ipcp.state.Closed?)
      then Some(CONF_REQUEST)
      else if e.CloseIpcp? && InNetwork(s) && s.ipcp.state.Opened? then Some(TERM_REQUEST)
      else None
    case ForIp6cp =>
      if (StartsNetwork(cfg, s, e) && cfg.ip6cpEnable) || HearsIp6cp(cfg, s, e, CONF_NAK)
         || (e.OpenIp6cp? && InNetwork(s) && s.ip6cp.state.Closed?)
      then Some(CONF_REQUEST)
      else if e.CloseIp6cp? && InNetwork(s) && s.ip6cp.state.Opened? then Some(TERM_REQUEST)
      else None
  }

  function RequestBit(w: Proto): SendBit {
    match w
    case ForLcp => SendLcpRequest
    case ForIpcp => SendIpcpRequest
    case ForIp6cp => SendIp6cpRequest
  }

  // The transmit job sends the request; one of a closed or open NCP is only counted.
  predicate Attempts(s: Session, w: Proto, e: Event) {
    e.Tx? && Served(s) == Some(RequestBit(w))
  }

  // An identifier is taken: by a request that is sent, an Echo-Request, a Protocol-Reject.
  predicate TakesId(cfg: Config, s: Session, w: Proto, e: Event) {
    || (Attempts(s, w, e) && (w.ForLcp? || (!CpOf(s, w).state.Closed? && !CpOf(s, w).state.Opened?)))
    || (w.ForLcp? && e.LcpEcho? && s.state.Established? && s.lcp.retries <= cfg.keepaliveRetry)
    || (w.ForLcp? && Refused(cfg, s, e))
  }

  // The peer was heard, so that attempts are counted anew.
  predicate Resets(cfg: Config, s: Session, w: Proto, e: Event) {
    || (e.Restart? && s.state.Terminated?)
    || match w
       case ForLcp =>
         || HearsLcp(s, e, CONF_ACK) || HearsLcp(s, e, CONF_NAK) || HearsLcp(s, e, ECHO_REPLY)
         || (e.Rx? && Attentive(s) && Rank(PppLink) <= Rank(s.state) && e.packet.Lcp? && e.packet.lcp.code == TERM_ACK)
       case ForIpcp =>
         || HearsIpcp(cfg, s, e, CONF_ACK) || HearsIpcp(cfg, s, e, CONF_NAK) || HearsIpcp(cfg, s, e, TERM_ACK)
         || (HearsIpcp(cfg, s, e, CONF_REJECT) && !cfg.ipcpRejectIgnore)
       case ForIp6cp =>
         HearsIp6cp(cfg, s, e, CONF_ACK) || HearsIp6cp(cfg, s, e, CONF_NAK) || HearsIp6cp(cfg, s, e, TERM_ACK)
  }

  predicate Asking(cfg: Config, s: Session, w: Proto, e: Event, t: Session) {
    var c, d := CpOf(s, w), CpOf(t, w);
    && d.requestCode == (if NewCode(cfg, s, w, e).Some? then NewCode(cfg, s, w, e).value else c.requestCode)
    && d.id == (if TakesId(cfg, s, w, e) then Bump(c.id) else c.id)
    && d.retries == (if Resets(cfg, s, w, e) then 0 else if Attempts(s, w, e) then Bump(c.retries) else c.retries)
  }

  // The three values together.
  datatype Question = Question(code: Byte, id: Byte, retries: Byte)

  function QuestionOf(s: Session, w: Proto): Question {
    Question(CpOf(s, w).requestCode, CpOf(s, w).id, CpOf(s, w).retries)
  }

  lemma QuestionPhases(cfg: Config, s: Session, w: Proto, next: SessionState)
    ensures QuestionOf(UpdateState(s, next), w) == QuestionOf(s, w)
    ensures QuestionOf(CheckEstablished(s), w) == QuestionOf(s, w)
    ensures QuestionOf(AbandonLink(s), w) == QuestionOf(s, w)
    ensures QuestionOf(TerminateLink(s), w) == if w.ForLcp? then QuestionOf(s, w).(code := TERM_REQUEST) else QuestionOf(s, w)
    ensures QuestionOf(EnterNetwork(cfg, s), w)
         == if (w.ForIpcp? && cfg.ipcpEnable) || (w.ForIp6cp? && cfg.ip6cpEnable)
            then QuestionOf(s, w).(code := CONF_REQUEST) else QuestionOf(s, w)
  {
  }

  lemma QuestionOpened(cfg: Config, s: Session, w: Proto)
    ensures QuestionOf(LcpOpened(cfg, s), w)
         == if !IsAuth(s.auth) && ((w.ForIpcp? && cfg.ipcpEnable) || (w.ForIp6cp? && cfg.ip6cpEnable))
            then QuestionOf(s, w).(code := CONF_REQUEST) else QuestionOf(s, w)
  {
    hide UpdateState, EnterNetwork;
    QuestionPhases(cfg, s.(lcp := s.lcp.(state := Opened)), w, PppAuth);
  }

  lemma QuestionClear(s: Session, w: Proto)
    ensures QuestionOf(ClearSession(s), w)
         == if w.ForLcp? && Rank(PppAuth) <= Rank(s.state) <= Rank(PppTerminating)
            then QuestionOf(s, w).(code := TERM_REQUEST) else QuestionOf(s, w)
  {
  }

  lemma AskingConfRequest(cfg: Config, s: Session, w: Proto, p: LcpPacket)
    requires Decoded(Lcp(p)) && Attentive(s) && Listening(s.state) && p.code == CONF_REQUEST
    ensures Asking(cfg, s, w, Rx(Lcp(p)), RxLcpConfRequest(cfg, s, p))
  {
    hide Options.LcpReject, SuggestedAuth, Options.WellFormed, NaksAuth, NegotiatedAuth, LcpOpened;
    var t := s.(auth := NegotiatedAuth(cfg, s, p), link := HeardLink(s.link, p),
                lcp := s.lcp.(options := KeptOptions(s.lcp.options, p.options)));
    QuestionOpened(cfg, t, w);
    assert QuestionOf(t, w) == QuestionOf(s, w);
  }

  lemma AskingConfAck(cfg: Config, s: Session, w: Proto, p: LcpPacket)
    requires Attentive(s) && Listening(s.state) && p.code == CONF_ACK
    ensures Asking(cfg, s, w, Rx(Lcp(p)), RxLcpConfAck(cfg, s))
  {
    hide LcpOpened;
    QuestionOpened(cfg, s.(lcp := s.lcp.(retries := 0)), w);
  }

  lemma QuestionOtherLcp(cfg: Config, s: Session, w: Proto, p: LcpPacket)
    requires Decoded(Lcp(p)) && Attentive(s) && p.code != CONF_REQUEST && p.code != CONF_ACK
    ensures var q := QuestionOf(s, w);
      QuestionOf(RxLcp(cfg, s, p), w)
      == if !w.ForLcp? || Rank(s.state) < Rank(PppLink) then q
         else if p.code == TERM_ACK then q.(retries := 0)
         else if s.state.PppTerminating? then q
         else if p.code == TERM_REQUEST then q.(code := TERM_REQUEST)
         else if p.code == CONF_NAK then q.(code := CONF_REQUEST, retries := 0)
         else if p.code == ECHO_REPLY then q.(retries := 0)
         else q
  {
    hide Options.LcpReject, Options.WellFormed, Truncated, Bytes32, RxLcpConfRequest, RxLcpConfAck, CheckEstablished, AbandonLink,
         UpdateState, RxLcpTermRequest;
    QuestionTerm(s, p, w);
    QuestionPhases(cfg, s.(lcp := s.lcp.(retries := 0)), w, Idle);
    QuestionPhases(cfg, s.(ipcp := s.ipcp.(state := PppState.Rejected)), w, Idle);
    QuestionPhases(cfg, s.(ip6cp := s.ip6cp.(state := PppState.Rejected)), w, Idle);
    QuestionPhases(cfg, s, w, Idle);
  }

  lemma AskingLcp(cfg: Config, s: Session, w: Proto, p: LcpPacket)
    requires Decoded(Lcp(p)) && Attentive(s)
    ensures Asking(cfg, s, w, Rx(Lcp(p)), RxLcp(cfg, s, p))
  {
    hide Options.WellFormed, NaksAuth, NegotiatedAuth, RxLcpConfRequest, RxLcpConfAck, IsAuth, RxLcpVendor, RxLcpConfNak,
         RxLcpTermRequest, AbandonLink, RxLcpProtReject, LcpRespond, Truncated, Served;
    if p.code == CONF_REQUEST {
      if Listening(s.state) {
        AskingConfRequest(cfg, s, w, p);
      }
    } else if p.code == CONF_ACK {
      if Listening(s.state) {
        AskingConfAck(cfg, s, w, p);
      }
    } else {
      QuestionOtherLcp(cfg, s, w, p);
    }
  }

  lemma QuestionTerm(s: Session, p: LcpPacket, w: Proto)
    ensures QuestionOf(RxLcpTermRequest(s, p), w)
         == if w.ForLcp? && !s.state.PppTerminating? then QuestionOf(s, w).(code := TERM_REQUEST) else QuestionOf(s, w)
  {
  }

  lemma AskingNcp(cfg: Config, s: Session, w: Proto, p: Packet)
    requires Decoded(p) && Attentive(s) && (p.Ipcp? || p.Ip6cp?)
    ensures Asking(cfg, s, w, Rx(p), Receive(cfg, s, p))
  {
    hide Options.IpcpReject, Options.WellFormed, Suggested, HeardPeer, Net16, KeptOptions, OnConfAck, OnConfRequest;
  }

  lemma AskingDiscovery(cfg: Config, s: Session, w: Proto, d: DiscoveryPacket)
    requires Attentive(s)
    ensures Asking(cfg, s, w, Rx(Discovery(d)), RxDiscovery(cfg, s, d))
  {
    hide UpdateState;
    QuestionPhases(cfg, s, w, PppoeRequest);
    QuestionPhases(cfg, s, w, PppLink);
    QuestionPhases(cfg, s, w, Terminated);
  }

  lemma QuestionLogin(cfg: Config, s: Session, w: Proto, p: Packet)
    requires Attentive(s) && (p.Pap? || p.Chap? || p.RouterSolicitation?)
    ensures var q := QuestionOf(s, w);
      QuestionOf(Receive(cfg, s, p), w)
      == if EntersNetwork(cfg, s, p) && ((w.ForIpcp? && cfg.ipcpEnable) || (w.ForIp6cp? && cfg.ip6cpEnable))
         then q.(code := CONF_REQUEST)
         else if w.ForLcp? && LoginFails(s, p) then q.(code := TERM_REQUEST)
         else q
  {
    hide EnterNetwork, TerminateLink;
    QuestionPhases(cfg, s, w, Idle);
    QuestionPhases(cfg, s.(login := s.login.(l2tp := true)), w, Idle);
    QuestionPhases(cfg, s.(login := s.login.(l2tp := false)), w, Idle);
  }

  lemma AskingLogin(cfg: Config, s: Session, w: Proto, p: Packet)
    requires Attentive(s) && (p.Pap? || p.Chap? || p.RouterSolicitation?)
    ensures Asking(cfg, s, w, Rx(p), Receive(cfg, s, p))
  {
    hide Receive, EntersNetwork, LoginFails;
    QuestionLogin(cfg, s, w, p);
  }

  predicate Echoes(cfg: Config, s: Session, e: Event) {
    e.LcpEcho? && s.state.Established? && s.lcp.retries <= cfg.keepaliveRetry
  }

  lemma NcpTimerQuestion(cfg: Config, s: Session, w: Proto, e: Event)
    requires e.IpcpTimeout? || e.Ip6cpTimeout?
    ensures var q := QuestionOf(s, w);
      QuestionOf(Step(cfg, s, e), w) == if w.ForLcp? && AsksTermination(cfg, s, e) then q.(code := TERM_REQUEST) else q
  {
    hide ClearSession;
    QuestionClear(s.(ipcp := s.ipcp.(state := Closed)), w);
    QuestionClear(s.(ip6cp := s.ip6cp.(state := Closed)), w);
  }

  lemma EchoQuestion(cfg: Config, s: Session, w: Proto, e: Event)
    requires e.LcpEcho? || e.LcpStartDelay?
    ensures var q := QuestionOf(s, w);
      QuestionOf(Step(cfg, s, e), w)
      == if w.ForLcp? && Echoes(cfg, s, e) then q.(code := ECHO_REQUEST, id := Bump(q.id))
         else if w.ForLcp? && e.LcpStartDelay? then q.(code := CONF_REQUEST)
         else q
  {
    hide AbandonLink;
    QuestionPhases(cfg, s, w, Idle);
  }

  lemma ClearQuestion(cfg: Config, s: Session, w: Proto, e: Event)
    requires e.LcpTimeout? || e.Clear? || e.SessionTimeout? || e.PapTimeout? || e.ChapTimeout?
    ensures var q := QuestionOf(s, w);
      QuestionOf(Step(cfg, s, e), w) == if w.ForLcp? && AsksTermination(cfg, s, e) then q.(code := TERM_REQUEST) else q
  {
    hide ClearSession, AbandonLink;
    QuestionClear(s, w);
    QuestionPhases(cfg, s, w, Idle);
  }

  lemma TimerQuestion(cfg: Config, s: Session, w: Proto, e: Event)
    requires Timer(e)
    ensures var q := QuestionOf(s, w);
      QuestionOf(Step(cfg, s, e), w)
      == if !w.ForLcp? then q
         else if AsksTermination(cfg, s, e) then q.(code := TERM_REQUEST)
         else if Echoes(cfg, s, e) then q.(code := ECHO_REQUEST, id := Bump(q.id))
         else if e.LcpStartDelay? then q.(code := CONF_REQUEST)
         else q
  {
    hide Step, AsksTermination, QuestionOf;
    EchoIsNot(cfg, s, e);
    if e.IpcpTimeout? || e.Ip6cpTimeout? {
      NcpTimerQuestion(cfg, s, w, e);
    } else if e.LcpEcho? || e.LcpStartDelay? {
      EchoQuestion(cfg, s, w, e);
    } else {
      ClearQuestion(cfg, s, w, e);
    }
  }

  lemma AskingTimer(cfg: Config, s: Session, w: Proto, e: Event)
    requires Timer(e)
    ensures Asking(cfg, s, w, e, Step(cfg, s, e))
  {
    hide Step, HearsLcp, HearsIpcp, HearsIp6cp, StartsNetwork, GetsSession, AsksTermination, Served;
    NotReceived(cfg, s, e);
    TimerQuestion(cfg, s, w, e);
    EchoIsNot(cfg, s, e);
  }

  lemma EchoIsNot(cfg: Config, s: Session, e: Event)
    ensures e.LcpEcho? || e.LcpStartDelay? ==> !AsksTermination(cfg, s, e)
  {
  }

  lemma TransmitQuestion(s: Session, w: Proto)
    ensures var q := QuestionOf(s, w);
      QuestionOf(Transmit(s), w)
      == if Served(s) != Some(RequestBit(w)) then q
         else q.(retries := Bump(q.retries),
                 id := if w.ForLcp? || MayRequest(CpOf(s, w)) then Bump(q.id) else q.id)
  {
    hide Served, UpdateState;
    SameQuestion(s, w);
  }

  lemma SameQuestion(s: Session, w: Proto)
    ensures QuestionOf(UpdateState(s, Terminated), w) == QuestionOf(s, w)
  {
  }

  lemma AskingTransmit(cfg: Config, s: Session, w: Proto)
    ensures Asking(cfg, s, w, Tx, Transmit(s))
  {
    hide Transmit, Served;
    TransmitQuestion(s, w);
  }

  lemma LocalQuestion(cfg: Config, s: Session, w: Proto, e: Event)
    requires !e.Rx? && !e.Tx? && !Timer(e)
    ensures var q := QuestionOf(s, w);
      QuestionOf(Step(cfg, s, e), w)
      == if e.Restart? && s.state.Terminated? then q.(code := if w.ForLcp? then 0 else q.code, retries := 0)
         else if w.ForIpcp? && e.OpenIpcp? && InNetwork(s) && s.ipcp.state.Closed? then q.(code := CONF_REQUEST)
         else if w.ForIpcp? && e.CloseIpcp? && InNetwork(s) && s.ipcp.state.Opened? then q.(code := TERM_REQUEST)
         else if w.ForIp6cp? && e.OpenIp6cp? && InNetwork(s) && s.ip6cp.state.Closed? then q.(code := CONF_REQUEST)
         else if w.ForIp6cp? && e.CloseIp6cp? && InNetwork(s) && s.ip6cp.state.Opened? then q.(code := TERM_REQUEST)
         else q
  {
    hide UpdateState;
    QuestionPhases(cfg, s, w, PppoeInit);
  }

  lemma AskingLocal(cfg: Config, s: Session, w: Proto, e: Event)
    requires !e.Rx? && !e.Tx? && !Timer(e)
    ensures Asking(cfg, s, w, e, Step(cfg, s, e))
  {
    hide Step, Served, HearsLcp, HearsIpcp, HearsIp6cp, StartsNetwork, GetsSession;
    NotReceived(cfg, s, e);
    LocalQuestion(cfg, s, w, e);
  }

  // For every event and state: the code of the pending request, the last identifier and
  // the attempts made.
  lemma AskingStep(cfg: Config, s: Session, w: Proto, e: Event)
    requires Proper(e)
    ensures Asking(cfg, s, w, e, Step(cfg, s, e))
  {
    hide RxLcp, RxDiscovery, EntersNetwork, Options.WellFormed;
    if Timer(e) {
      AskingTimer(cfg, s, w, e);
    } else if e.Tx? {
      AskingTransmit(cfg, s, w);
    } else if !e.Rx? {
      AskingLocal(cfg, s, w, e);
    } else if Attentive(s) {
      match e.packet
      case Lcp(l) => AskingLcp(cfg, s, w, l);
      case Ipcp(_) => AskingNcp(cfg, s, w, e.packet);
      case Ip6cp(_) => AskingNcp(cfg, s, w, e.packet);
      case Discovery(d) => AskingDiscovery(cfg, s, w, d);
      case _ => AskingLogin(cfg, s, w, e.packet);
    }
  }

  // ---- Discovery and login

  predicate DiscoveryAnswered(cfg: Config, s: Session, e: Event) {
    GetsOffer(cfg, s, e) || GetsSession(cfg, s, e) || (e.Restart? && s.state.Terminated?)
  }

  predicate Counting(cfg: Config, s: Session, e: Event, t: Session) {
    && t.pppoe.retries == (if DiscoveryAnswered(cfg, s, e) then 0
                           else if e.Tx? && Served(s) == Some(SendDiscovery) then Bump(s.pppoe.retries) else s.pppoe.retries)
    && t.login.retries == (if e.Restart? && s.state.Terminated? then 0
                           else if e.Tx? && (Served(s) == Some(SendPap) || Served(s) == Some(SendChap))
                           then Bump(s.login.retries) else s.login.retries)
  }

  // Neither counter moves.
  predicate Still(s: Session, t: Session) {
    s.pppoe.retries == t.pppoe.retries && s.login.retries == t.login.retries
  }

  lemma StillPhases(cfg: Config, s: Session, next: SessionState)
    ensures Still(UpdateState(s, next), s) && Still(CheckEstablished(s), s) && Still(AbandonLink(s), s)
    ensures Still(TerminateLink(s), s) && Still(ClearSession(s), s)
    ensures Still(EnterNetwork(cfg, s), s) && Still(LcpOpened(cfg, s), s)
  {
  }

  lemma StillLogin(cfg: Config, s: Session, p: Packet)
    requires Attentive(s) && (p.Pap? || p.Chap? || p.RouterSolicitation?)
    ensures Still(Receive(cfg, s, p), s)
  {
    hide TerminateLink, EnterNetwork;
    StillPhases(cfg, s, Idle);
    StillPhases(cfg, s.(login := s.login.(l2tp := true)), Idle);
    StillPhases(cfg, s.(login := s.login.(l2tp := false)), Idle);
  }

  lemma StillNcp(cfg: Config, s: Session, p: Packet)
    requires Decoded(p) && Attentive(s) && (p.Ipcp? || p.Ip6cp?)
    ensures Still(Receive(cfg, s, p), s)
  {
    hide Options.IpcpReject, Options.WellFormed, Suggested, HeardPeer, Net16, KeptOptions, OnConfAck, OnConfRequest;
  }

  lemma StillLcp(cfg: Config, s: Session, p: LcpPacket)
    requires Decoded(Lcp(p)) && Attentive(s)
    ensures Still(RxLcp(cfg, s, p), s)
  {
    hide Options.LcpReject, SuggestedAuth, Options.WellFormed, Truncated, Bytes32, NaksAuth, NegotiatedAuth,
         LcpOpened, CheckEstablished, AbandonLink, UpdateState, KeptOptions, HeardLink;
    StillPhases(cfg, s.(lcp := s.lcp.(retries := 0)), Idle);
    StillPhases(cfg, s.(ipcp := s.ipcp.(state := PppState.Rejected)), Idle);
    StillPhases(cfg, s.(ip6cp := s.ip6cp.(state := PppState.Rejected)), Idle);
    StillPhases(cfg, s, Idle);
    StillPhases(cfg, RxTermSlot(s, p), PppTerminating);
    StillPhases(cfg, s.(auth := NegotiatedAuth(cfg, s, p), link := HeardLink(s.link, p),
                        lcp := s.lcp.(options := KeptOptions(s.lcp.options, p.options))), Idle);
  }

  // The session as the Terminate-Request handler leaves it before the phase changes.
  function RxTermSlot(s: Session, p: LcpPacket): Session {
    var t := s.(lcp := Respond(s.lcp, TERM_ACK, p.id, []).(state := Terminate), send := {SendLcpResponse});
    if s.state.PppTerminating? then t
    else t.(lcp := t.lcp.(requestCode := TERM_REQUEST), send := {SendLcpResponse, SendLcpRequest})
  }

  lemma StillPacket(cfg: Config, s: Session, p: Packet)
    requires Decoded(p) && Attentive(s) && !p.Discovery?
    ensures Still(Receive(cfg, s, p), s)
  {
    hide RxLcp, RxPap, RxChap, RxIpcp, RxIp6cp, Options.WellFormed;
    if p.Lcp? {
      StillLcp(cfg, s, p.lcp);
    } else if p.Ipcp? || p.Ip6cp? {
      StillNcp(cfg, s, p);
    } else {
      StillLogin(cfg, s, p);
    }
  }

  lemma CountingDiscovery(cfg: Config, s: Session, d: DiscoveryPacket)
    requires Attentive(s)
    ensures Counting(cfg, s, Rx(Discovery(d)), RxDiscovery(cfg, s, d))
  {
    hide UpdateState;
    StillPhases(cfg, s, PppoeRequest);
    StillPhases(cfg, s, PppLink);
    StillPhases(cfg, s, Terminated);
  }

  lemma StillTimer(cfg: Config, s: Session, e: Event)
    requires !e.Rx? && !e.Tx? && !e.Restart?
    ensures Still(Step(cfg, s, e), s)
  {
    hide ClearSession, AbandonLink, UpdateState;
    StillPhases(cfg, s, PppoeInit);
    StillPhases(cfg, s.(ipcp := s.ipcp.(state := Closed)), Idle);
    StillPhases(cfg, s.(ip6cp := s.ip6cp.(state := Closed)), Idle);
  }

  lemma CountingTransmit(cfg: Config, s: Session)
    ensures Counting(cfg, s, Tx, Transmit(s))
  {
    hide Served, UpdateState;
    StillPhases(cfg, s, Terminated);
  }

  lemma CountingStep(cfg: Config, s: Session, e: Event)
    requires Proper(e)
    ensures Counting(cfg, s, e, Step(cfg, s, e))
  {
    hide RxLcp, RxDiscovery, RxPap, RxChap, RxIpcp, RxIp6cp, Options.WellFormed, Served, Transmit, ClearSession, AbandonLink, UpdateState;
    if e.Tx? {
      CountingTransmit(cfg, s);
    } else if !e.Rx? {
      if !e.Restart? {
        StillTimer(cfg, s, e);
      }
    } else if Attentive(s) {
      if e.packet.Discovery? {
        CountingDiscovery(cfg, s, e.packet.d);
      } else {
        StillPacket(cfg, s, e.packet);
      }
    }
  }

  // ---- Over runs

  ghost function StateBefore(cfg: Config, s: Session, es: seq<Event>): Session
    requires AllProper(es) && es != []
  {
    Run(cfg, s, FRESH, es[..|es| - 1]).0
  }

  // The attempts since the peer was last heard.
  ghost function AttemptCount(cfg: Config, s: Session, w: Proto, es: seq<Event>): nat
    requires AllProper(es)
  {
    if es == [] then CpOf(s, w).retries
    else
      var t, e := StateBefore(cfg, s, es), es[|es| - 1];
      if Resets(cfg, t, w, e) then 0 else AttemptCount(cfg, s, w, es[..|es| - 1]) + if Attempts(t, w, e) then 1 else 0
  }

  // The identifiers taken.
  ghost function IdCount(cfg: Config, s: Session, w: Proto, es: seq<Event>): nat
    requires AllProper(es)
  {
    if es == [] then CpOf(s, w).id
    else IdCount(cfg, s, w, es[..|es| - 1]) + if TakesId(cfg, StateBefore(cfg, s, es), w, es[|es| - 1]) then 1 else 0
  }

  // The code that was given last.
  ghost function LastCode(cfg: Config, s: Session, w: Proto, es: seq<Event>): Byte
    requires AllProper(es)
  {
    if es == [] then CpOf(s, w).requestCode
    else
      var o := NewCode(cfg, StateBefore(cfg, s, es), w, es[|es| - 1]);
      if o.Some? then o.value else LastCode(cfg, s, w, es[..|es| - 1])
  }

  // In every run the retry counter is the number of attempts since the peer was last
  // heard, the identifier counts what took one, both in a byte, and the pending request
  // is the one that was asked for last.
  lemma {:induction false} RequestsCounted(cfg: Config, s: Session, w: Proto, es: seq<Event>)
    requires AllProper(es)
    ensures var c := CpOf(Run(cfg, s, FRESH, es).0, w);
      && c.retries == AttemptCount(cfg, s, w, es) % 256
      && c.id == IdCount(cfg, s, w, es) % 256
      && c.requestCode == LastCode(cfg, s, w, es)
  {
    hide Step, Observe, Proper, Resets, Attempts, TakesId, NewCode, CpOf, Bump, Asking;
    if es != [] {
      var n := |es| - 1;
      RequestsCounted(cfg, s, w, es[..n]);
      RunLast(cfg, s, es);
      AskingMeans(cfg, StateBefore(cfg, s, es), w, es[n]);
      BumpCounts(AttemptCount(cfg, s, w, es[..n]));
      BumpCounts(IdCount(cfg, s, w, es[..n]));
    }
  }

  lemma RunLast(cfg: Config, s: Session, es: seq<Event>)
    requires AllProper(es) && es != []
    ensures Run(cfg, s, FRESH, es).0 == Step(cfg, StateBefore(cfg, s, es), es[|es| - 1])
  {
    hide Step, Observe, Proper;
  }

  lemma AskingMeans(cfg: Config, s: Session, w: Proto, e: Event)
    requires Proper(e)
    ensures var c, d := CpOf(s, w), CpOf(Step(cfg, s, e), w);
      && d.requestCode == (if NewCode(cfg, s, w, e).Some? then NewCode(cfg, s, w, e).value else c.requestCode)
      && d.id == (if TakesId(cfg, s, w, e) then Bump(c.id) else c.id)
      && d.retries == (if Resets(cfg, s, w, e) then 0 else if Attempts(s, w, e) then Bump(c.retries) else c.retries)
  {
    hide Step, Resets, Attempts, TakesId, NewCode, CpOf, Bump;
    AskingStep(cfg, s, w, e);
  }

  lemma BumpCounts(n: nat)
    ensures Bump(n % 256) == (n + 1) % 256
  {
  }

  // ---- On the wire

  // The transmit job sends the pending request with the next identifier, which it
  // remembers; a request of a closed or open NCP is not sent.
  lemma RequestSays(cfg: Config, s: Session, w: Proto)
    requires Served(s) == Some(RequestBit(w))
    ensures !w.ForLcp? && (CpOf(s, w).state.Closed? || CpOf(s, w).state.Opened?) ==> Frame(cfg, s) == []
    ensures w.ForLcp? || !(CpOf(s, w).state.Closed? || CpOf(s, w).state.Opened?) ==>
      && |Frame(cfg, s)| == 1 && BelongsTo(Frame(cfg, s)[0], w)
      && CodeOf(Frame(cfg, s)[0]) == CpOf(s, w).requestCode
      && IdOf(Frame(cfg, s)[0]) == Bump(CpOf(s, w).id) == CpOf(Transmit(s), w).id
  {
    hide LcpOptionBytes, AddressOption, InterfaceOption;
  }
}
