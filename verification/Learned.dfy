/**
 What the client knows. Every value a session has from outside is the one it was last
 told, by a packet that may tell it or by a command, and nothing else changes it. What
 the client says to the peer is made of these values.
 */
module Learned {
  import opened Types
  import opened ClientSpec
  import opened Skeleton
  import opened ClientRuns
  import Options

  datatype Field =
    | SessionId | ServerMac | Cookie | Service
    | Mru | Magic | PeerMru | PeerMagic
    | ChapChallenge | Tunnelled
    | Address | PeerAddress | Dns1 | Dns2 | AsksDns1 | AsksDns2
    | InterfaceId | PeerInterfaceId

  datatype Value = Number(n: nat) | Bytes(b: seq<Byte>) | Flag(f: bool)

  function Get(s: Session, f: Field): Value {
    match f
    case SessionId => Number(s.pppoe.sessionId)
    case ServerMac => Bytes(s.pppoe.serverMac)
    case Cookie => Bytes(s.pppoe.cookie)
    case Service => Bytes(s.pppoe.service)
    case Mru => Number(s.link.mru)
    case Magic => Number(s.link.magic)
    case PeerMru => Number(s.link.peerMru)
    case PeerMagic => Number(s.link.peerMagic)
    case ChapChallenge => Number(s.login.chapId)
    case Tunnelled => Flag(s.login.l2tp)
    case Address => Number(s.ip.address)
    case PeerAddress => Number(s.ip.peerAddress)
    case Dns1 => Number(s.ip.dns1)
    case Dns2 => Number(s.ip.dns2)
    case AsksDns1 => Flag(s.ip.wantDns1)
    case AsksDns2 => Flag(s.ip.wantDns2)
    case InterfaceId => Number(s.ip6.interfaceId)
    case PeerInterfaceId => Number(s.ip6.peerInterfaceId)
  }

  // ---- Who may tell what

  // A number that is zero or missing tells nothing.
  function Told(n: nat): Option<Value> {
    if n == 0 then None else Some(Number(n))
  }

  function ToldByDiscovery(cfg: Config, s: Session, d: DiscoveryPacket, f: Field): Option<Value> {
    if s.state.PppoeInit? && d.code == PADO then
      match f
      case ServerMac => Some(Bytes(d.src))
      case Cookie => if |d.cookie| > 0 then Some(Bytes(d.cookie)) else None
      case Service => if |s.pppoe.service| == 0 then Some(Bytes(d.service)) else None
      case _ => None
    else if f.SessionId? && s.state.PppoeRequest? && d.code == PADS && d.sessionId > 0 && d.service == s.pppoe.service
            && (cfg.hostUniq == 0 || d.hostUniq == Some(cfg.hostUniq))
    then Some(Number(d.sessionId))
    else None
  }

  // Own values are corrected by a Conf-Nak, values of the peer stand in a Configure-Request
  // that is acknowledged.
  predicate AcceptsAuth(cfg: Config, auth: nat) {
    if auth == 0 then cfg.authentication == 0
    else (auth == PROTOCOL_PAP || auth == PROTOCOL_CHAP) && (cfg.authentication == 0 || cfg.authentication == auth)
  }

  function ToldByLcp(cfg: Config, s: Session, p: LcpPacket, f: Field): Option<Value> {
    if !Listening(s.state) then None
    else if p.code == CONF_NAK then
      match f
      case Mru => Told(p.mru)
      case Magic => Told(p.magic)
      case _ => None
    else if p.code == CONF_REQUEST && !p.unknownOptions && AcceptsAuth(cfg, p.auth) then
      match f
      case PeerMru => Told(p.mru)
      case PeerMagic => Told(p.magic)
      case _ => None
    else None
  }

  function ToldByIpcp(cfg: Config, s: Session, p: IpcpPacket, f: Field): Option<Value> {
    if !s.lcp.state.Opened? || !cfg.ipcpGlobal then None
    else if p.code == CONF_NAK then
      match f
      case Address => Told(OrZero(p.address))
      case Dns1 => Told(OrZero(p.dns1))
      case Dns2 => Told(OrZero(p.dns2))
      case _ => None
    else if p.code == CONF_REJECT && !cfg.ipcpRejectIgnore then
      match f
      case AsksDns1 => if p.dns1.Some? then Some(Flag(false)) else None
      case AsksDns2 => if p.dns2.Some? then Some(Flag(false)) else None
      case _ => None
    else if p.code == CONF_REQUEST && !p.unknownOptions && p.dns1 == None && p.dns2 == None && f.PeerAddress? then
      Told(OrZero(p.address))
    else None
  }

  function ToldByIp6cp(cfg: Config, s: Session, p: Ip6cpPacket, f: Field): Option<Value> {
    if !s.lcp.state.Opened? || !cfg.ip6cpGlobal then None
    else if p.code == CONF_NAK && f.InterfaceId? then Told(p.interfaceId)
    else if p.code == CONF_REQUEST && f.PeerInterfaceId? then Told(p.interfaceId)
    else None
  }

  function ToldByPacket(cfg: Config, s: Session, p: Packet, f: Field): Option<Value> {
    if s.state.Idle? || s.state.Terminated? then None
    else
      match p
      case Discovery(d) => ToldByDiscovery(cfg, s, d, f)
      case Lcp(l) => ToldByLcp(cfg, s, l, f)
      case Pap(code, _, l2tp) =>
        if f.Tunnelled? && s.state.PppAuth? && code == PAP_ACK && l2tp then Some(Flag(true)) else None
      case Chap(code, id, len, l2tp) =>
        if f.ChapChallenge? && s.state.PppAuth? && code == CHAP_CHALLENGE && len > 0 then Some(Number(id))
        else if f.Tunnelled? && s.state.PppAuth? && code == CHAP_SUCCESS && l2tp then Some(Flag(true))
        else None
      case Ipcp(i) => ToldByIpcp(cfg, s, i, f)
      case Ip6cp(i) => ToldByIp6cp(cfg, s, i, f)
      case RouterSolicitation => None
  }

  // A reconnect forgets what belongs to one connection; the magic number, the interface
  // identifiers and the last challenge stay.
  function Forgotten(cfg: Config, f: Field): Option<Value> {
    match f
    case SessionId => Some(Number(0))
    case ServerMac => Some(Bytes([255, 255, 255, 255, 255, 255]))
    case Cookie => Some(Bytes([]))
    case Service => if |cfg.serviceName| == 0 then Some(Bytes([])) else None
    case Mru => Some(Number(cfg.mru))
    case PeerMru => Some(Number(0))
    case PeerMagic => Some(Number(0))
    case Tunnelled => Some(Flag(false))
    case Address => Some(Number(0))
    case PeerAddress => Some(Number(0))
    case Dns1 => Some(Number(0))
    case Dns2 => Some(Number(0))
    case AsksDns1 => Some(Flag(cfg.requestDns1))
    case AsksDns2 => Some(Flag(cfg.requestDns2))
    case _ => None
  }

  function Tells(cfg: Config, s: Session, e: Event, f: Field): Option<Value> {
    match e
    case Rx(p) => ToldByPacket(cfg, s, p, f)
    case Restart => if s.state.Terminated? then Forgotten(cfg, f) else None
    case CloseIpcp =>
      if (s.state.Established? || s.state.PppNetwork?) && s.ipcp.state.Opened?
         && (f.Address? || f.PeerAddress? || f.Dns1? || f.Dns2?)
      then Some(Number(0)) else None
    case _ => None
  }

  // ---- That nobody else does

  // Sessions that know the same.
  predicate Same(s: Session, t: Session) {
    && s.pppoe == t.pppoe.(retries := s.pppoe.retries) && s.login == t.login.(retries := s.login.retries)
    && s.link == t.link && s.ip == t.ip && s.ip6 == t.ip6
  }

  lemma SameGet(s: Session, t: Session, f: Field)
    requires Same(s, t)
    ensures Get(s, f) == Get(t, f)
  {
  }

  lemma SameState(s: Session, next: SessionState)
    ensures Same(UpdateState(s, next), s)
  {
  }

  lemma SamePhases(cfg: Config, s: Session, next: SessionState)
    ensures Same(UpdateState(s, next), s) && Same(CheckEstablished(s), s)
    ensures Same(AbandonLink(s), s) && Same(TerminateLink(s), s) && Same(ClearSession(s), s)
    ensures Same(EnterNetwork(cfg, s), s) && Same(LcpOpened(cfg, s), s)
  {
    hide UpdateState, CloseNcp;
    SameState(s, next);
    SameState(s, Established);
    SameState(s, Terminated);
    SameState(s, PppTerminating);
    SameState(CloseNcps(s), Terminating);
    SameState(s, PppNetwork);
    SameState(s.(lcp := s.lcp.(state := Opened)), PppNetwork);
    SameState(s.(lcp := s.lcp.(state := Opened)), PppAuth);
  }

  predicate Follows(cfg: Config, s: Session, e: Event, f: Field, t: Session) {
    var o := Tells(cfg, s, e, f);
    Get(t, f) == if o.Some? then o.value else Get(s, f)
  }

  lemma LearnDiscovery(cfg: Config, s: Session, d: DiscoveryPacket, f: Field)
    requires !s.state.Idle? && !s.state.Terminated?
    ensures Follows(cfg, s, Rx(Discovery(d)), f, RxDiscovery(cfg, s, d))
  {
    hide UpdateState;
    SamePhases(cfg, s, PppoeRequest);
    SamePhases(cfg, s, PppLink);
    SamePhases(cfg, s, Terminated);
  }

  lemma SameLcp(cfg: Config, s: Session, p: LcpPacket)
    requires Decoded(Lcp(p)) && p.code != CONF_REQUEST && p.code != CONF_NAK
    ensures Same(RxLcp(cfg, s, p), s)
  {
    hide Options.LcpReject, Options.WellFormed, Truncated, Bytes32, LcpOpened, CheckEstablished, AbandonLink, UpdateState;
    SamePhases(cfg, s.(lcp := s.lcp.(retries := 0)), Idle);
    SamePhases(cfg, s.(ipcp := s.ipcp.(state := Rejected)), Idle);
    SamePhases(cfg, s.(ip6cp := s.ip6cp.(state := Rejected)), Idle);
    SamePhases(cfg, s, Idle);
    if p.code == TERM_REQUEST {
      SameTermRequest(s, p);
    }
  }

  lemma SameTermRequest(s: Session, p: LcpPacket)
    ensures Same(RxLcpTermRequest(s, p), s)
  {
  }

  // What is left of a Configure-Request besides the answer.
  lemma LinkOfRequest(cfg: Config, s: Session, p: LcpPacket)
    requires Decoded(Lcp(p)) && p.code == CONF_REQUEST
    ensures Same(RxLcpConfRequest(cfg, s, p), if AcceptsLcp(cfg, p) then s.(link := HeardLink(s.link, p)) else s)
  {
    hide Options.LcpReject, SuggestedAuth, Options.WellFormed, NegotiatedAuth, LcpOpened, NaksAuth, HeardLink;
    var t := s.(auth := NegotiatedAuth(cfg, s, p), link := HeardLink(s.link, p),
                lcp := s.lcp.(options := KeptOptions(s.lcp.options, p.options)));
    SamePhases(cfg, t, Idle);
  }

  lemma LearnLink(cfg: Config, s: Session, p: LcpPacket, f: Field)
    requires Decoded(Lcp(p)) && (p.code == CONF_REQUEST || p.code == CONF_NAK) && Listening(s.state) && !s.state.Idle?
    ensures Follows(cfg, s, Rx(Lcp(p)), f, RxLcp(cfg, s, p))
  {
    hide Options.WellFormed, RxLcpConfRequest, NaksAuth;
    AuthAgrees(cfg, p);
    if p.code == CONF_REQUEST {
      LinkOfRequest(cfg, s, p);
      SameGet(RxLcpConfRequest(cfg, s, p), if AcceptsLcp(cfg, p) then s.(link := HeardLink(s.link, p)) else s, f);
    }
  }

  lemma AuthAgrees(cfg: Config, p: LcpPacket)
    ensures NaksAuth(cfg, p) <==> !AcceptsAuth(cfg, p.auth)
  {
  }

  lemma LearnLcp(cfg: Config, s: Session, p: LcpPacket, f: Field)
    requires Decoded(Lcp(p)) && !s.state.Idle? && !s.state.Terminated?
    ensures Follows(cfg, s, Rx(Lcp(p)), f, RxLcp(cfg, s, p))
  {
    hide Options.WellFormed, Same, Get, RxLcpConfRequest, AcceptsAuth;
    if p.code != CONF_REQUEST && p.code != CONF_NAK {
      SameLcp(cfg, s, p);
      SameGet(RxLcp(cfg, s, p), s, f);
    } else if Listening(s.state) {
      LearnLink(cfg, s, p, f);
    }
  }

  // Packets of the network protocols change nothing but the addresses.
  lemma SameNcp(cfg: Config, s: Session, p: Packet)
    requires Decoded(p) && (p.Ipcp? || p.Ip6cp?) && !s.state.Idle? && !s.state.Terminated?
    ensures var t := Receive(cfg, s, p);
      && Same(t, s.(ip := t.ip, ip6 := t.ip6))
      && (p.Ipcp? ==> t.ip6 == s.ip6) && (p.Ip6cp? ==> t.ip == s.ip)
  {
    hide Options.IpcpReject, Options.WellFormed, Net16, KeptOptions, OnConfAck, OnConfRequest;
  }

  lemma AddressesOfNcp(cfg: Config, s: Session, p: Packet)
    requires Decoded(p) && (p.Ipcp? || p.Ip6cp?) && !s.state.Idle? && !s.state.Terminated?
    ensures p.Ipcp? ==>
      (Receive(cfg, s, p).ip
       == if !s.lcp.state.Opened? || !cfg.ipcpGlobal then s.ip
          else if p.ipcp.code == CONF_NAK then Suggested(s.ip, p.ipcp)
          else if p.ipcp.code == CONF_REQUEST && AcceptsIpcp(p.ipcp) then HeardPeer(s.ip, p.ipcp)
          else if p.ipcp.code == CONF_REJECT && !cfg.ipcpRejectIgnore
          then s.ip.(wantDns1 := s.ip.wantDns1 && p.ipcp.dns1.None?, wantDns2 := s.ip.wantDns2 && p.ipcp.dns2.None?)
          else s.ip)
    ensures p.Ip6cp? ==>
      (Receive(cfg, s, p).ip6
       == if !s.lcp.state.Opened? || !cfg.ip6cpGlobal || p.ip6cp.interfaceId == 0 then s.ip6
          else if p.ip6cp.code == CONF_NAK then s.ip6.(interfaceId := p.ip6cp.interfaceId)
          else if p.ip6cp.code == CONF_REQUEST then s.ip6.(peerInterfaceId := p.ip6cp.interfaceId)
          else s.ip6)
  {
    hide Options.IpcpReject, Options.WellFormed, Net16, KeptOptions, OnConfAck, OnConfRequest, Suggested, HeardPeer;
  }

  lemma LearnNcp(cfg: Config, s: Session, p: Packet, f: Field)
    requires Decoded(p) && (p.Ipcp? || p.Ip6cp?) && !s.state.Idle? && !s.state.Terminated?
    ensures Follows(cfg, s, Rx(p), f, Receive(cfg, s, p))
  {
    hide Receive, Decoded;
    SameNcp(cfg, s, p);
    AddressesOfNcp(cfg, s, p);
  }

  lemma SameTransmit(s: Session)
    ensures Same(Transmit(s), s)
  {
    hide UpdateState, Served;
    SameState(s, Terminated);
  }

  lemma SameTimers(cfg: Config, s: Session, e: Event)
    requires !e.Rx? && !e.Restart? && !e.CloseIpcp?
    ensures Same(Step(cfg, s, e), s)
  {
    hide ClearSession, AbandonLink, UpdateState, Transmit;
    SameTransmit(s);
    SamePhases(cfg, s, PppoeInit);
    SamePhases(cfg, s.(ipcp := s.ipcp.(state := Closed)), Idle);
    SamePhases(cfg, s.(ip6cp := s.ip6cp.(state := Closed)), Idle);
  }

  lemma LearnLocal(cfg: Config, s: Session, e: Event, f: Field)
    requires !e.Rx?
    ensures Follows(cfg, s, e, f, Step(cfg, s, e))
  {
    if !e.Restart? && !e.CloseIpcp? {
      SameTimers(cfg, s, e);
      hide Step, Same, Get;
      SameGet(Step(cfg, s, e), s, f);
    }
  }

  lemma SameLogin(cfg: Config, s: Session, p: Packet)
    requires (p.Pap? || p.Chap? || p.RouterSolicitation?) && !s.state.Idle? && !s.state.Terminated?
    ensures Same(Receive(cfg, s, p),
                 if !s.state.PppAuth? then s
                 else if p.Pap? && p.papCode == PAP_ACK then s.(login := s.login.(l2tp := s.login.l2tp || p.papL2tp))
                 else if p.Chap? && p.chapCode == CHAP_CHALLENGE && p.challengeLen > 0 then s.(login := s.login.(chapId := p.chapId))
                 else if p.Chap? && p.chapCode == CHAP_SUCCESS then s.(login := s.login.(l2tp := s.login.l2tp || p.chapL2tp))
                 else s)
  {
    hide EnterNetwork, TerminateLink;
    SamePhases(cfg, s, Idle);
    SamePhases(cfg, s.(login := s.login.(l2tp := true)), Idle);
    SamePhases(cfg, s.(login := s.login.(l2tp := false)), Idle);
  }

  lemma LearnLogin(cfg: Config, s: Session, p: Packet, f: Field)
    requires (p.Pap? || p.Chap? || p.RouterSolicitation?) && !s.state.Idle? && !s.state.Terminated?
    ensures Follows(cfg, s, Rx(p), f, Receive(cfg, s, p))
  {
    hide Receive;
    SameLogin(cfg, s, p);
    if f.Tunnelled? || f.ChapChallenge? {
    } else {
      SameButLogin(s, Receive(cfg, s, p), f);
    }
  }

  lemma SameButLogin(s: Session, t: Session, f: Field)
    requires s.pppoe == t.pppoe.(retries := s.pppoe.retries) && s.link == t.link && s.ip == t.ip && s.ip6 == t.ip6
    requires !f.Tunnelled? && !f.ChapChallenge?
    ensures Get(s, f) == Get(t, f)
  {
  }

  // Every event leaves a value as it was unless it tells another.
  lemma LearnStep(cfg: Config, s: Session, e: Event, f: Field)
    requires Proper(e)
    ensures Follows(cfg, s, e, f, Step(cfg, s, e))
  {
    hide RxLcp, ToldByLcp, ToldByDiscovery, RxDiscovery, RxIpcp, RxIp6cp, ToldByIpcp, ToldByIp6cp, Get, Options.WellFormed,
         RxPap, RxChap;
    if !e.Rx? {
      LearnLocal(cfg, s, e, f);
    } else if !s.state.Idle? && !s.state.Terminated? {
      match e.packet
      case Discovery(d) => LearnDiscovery(cfg, s, d, f);
      case Lcp(l) => LearnLcp(cfg, s, l, f);
      case Ipcp(_) => LearnNcp(cfg, s, e.packet, f);
      case Ip6cp(_) => LearnNcp(cfg, s, e.packet, f);
      case _ => LearnLogin(cfg, s, e.packet, f);
    }
  }

  // ---- Over runs

  ghost function TellsAt(cfg: Config, s: Session, es: seq<Event>, k: nat, f: Field): Option<Value>
    requires AllProper(es) && k < |es|
  {
    Tells(cfg, Run(cfg, s, FRESH, es[..k]).0, es[k], f)
  }

  // Event k tells a value, and no later one does.
  ghost predicate LastTeller(cfg: Config, s: Session, es: seq<Event>, k: nat, f: Field)
    requires AllProper(es) && k < |es|
  {
    TellsAt(cfg, s, es, k, f).Some? && forall j :: k < j < |es| ==> TellsAt(cfg, s, es, j, f).None?
  }

  ghost predicate NobodyTells(cfg: Config, s: Session, es: seq<Event>, f: Field)
    requires AllProper(es)
  {
    forall j :: 0 <= j < |es| ==> TellsAt(cfg, s, es, j, f).None?
  }

  lemma TellsPrefix(cfg: Config, s: Session, es: seq<Event>, n: nat, k: nat, f: Field)
    requires AllProper(es) && k < n <= |es|
    ensures TellsAt(cfg, s, es[..n], k, f) == TellsAt(cfg, s, es, k, f)
  {
    hide Run, Tells, Proper;
    assert es[..n][..k] == es[..k];
  }

  lemma LearnAt(cfg: Config, s: Session, es: seq<Event>, f: Field)
    requires AllProper(es) && es != []
    ensures var o := TellsAt(cfg, s, es, |es| - 1, f);
      Get(Run(cfg, s, FRESH, es).0, f) == if o.Some? then o.value else Get(Run(cfg, s, FRESH, es[..|es| - 1]).0, f)
  {
    hide Step, Tells, Observe, Proper, Get;
    LearnStep(cfg, Run(cfg, s, FRESH, es[..|es| - 1]).0, es[|es| - 1], f);
  }

  // In every run a value is the one that was told last, by event k ...
  lemma {:induction false} KnowsWhatItWasTold(cfg: Config, s: Session, es: seq<Event>, k: nat, f: Field)
    requires AllProper(es) && k < |es| && LastTeller(cfg, s, es, k, f)
    ensures Some(Get(Run(cfg, s, FRESH, es).0, f)) == TellsAt(cfg, s, es, k, f)
  {
    hide Run, TellsAt, Proper, Get;
    var n := |es| - 1;
    LearnAt(cfg, s, es, f);
    if k < n {
      forall j | k <= j < n ensures TellsAt(cfg, s, es[..n], j, f) == TellsAt(cfg, s, es, j, f) {
        TellsPrefix(cfg, s, es, n, j, f);
      }
      KnowsWhatItWasTold(cfg, s, es[..n], k, f);
    }
  }

  // ... or the one at the beginning if none was told.
  lemma {:induction false} KnowsNothingElse(cfg: Config, s: Session, es: seq<Event>, f: Field)
    requires AllProper(es) && NobodyTells(cfg, s, es, f)
    ensures Get(Run(cfg, s, FRESH, es).0, f) == Get(s, f)
  {
    if es == [] {
    } else {
      hide Run, TellsAt, Proper, Get;
      var n := |es| - 1;
      LearnAt(cfg, s, es, f);
      forall j | 0 <= j < n ensures TellsAt(cfg, s, es[..n], j, f) == TellsAt(cfg, s, es, j, f) {
        TellsPrefix(cfg, s, es, n, j, f);
      }
      KnowsNothingElse(cfg, s, es[..n], f);
    }
  }
}
