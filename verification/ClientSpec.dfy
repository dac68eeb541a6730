/**
 The PPPoE/PPP client of one subscriber session as a function from state and
 event to state: discovery, LCP, PAP/CHAP, IPCP, IP6CP, the protocol timers,
 the session commands and the transmit side.
 */
module ClientSpec {
  import opened Types
  import Options

  datatype Event =
    | Rx(packet: Packet)
    | Tx
    | PadiTimeout | PadrTimeout | LcpTimeout | LcpStartDelay | LcpEcho
    | PapTimeout | ChapTimeout | IpcpTimeout | Ip6cpTimeout | SessionTimeout
    | Clear
    | OpenIpcp | OpenIp6cp | CloseIpcp | CloseIp6cp
    | Start | Restart

  // ---- Session state changes

  function CloseNcp(cp: Cp): Cp {
    if cp.state.Disabled? then cp else cp.(state := Closed)
  }

  function CloseNcps(s: Session): Session {
    s.(ipcp := CloseNcp(s.ipcp), ip6cp := CloseNcp(s.ip6cp))
  }

  // bbl_session_update_state
  function UpdateState(s: Session, next: SessionState): Session {
    if s.state == next then s
    else if next.PppTerminating? then CloseNcps(s).(state := next)
    else if next.Terminated? then CloseNcps(s).(state := next, lcp := s.lcp.(state := Closed))
    else s.(state := next)
  }

  // Ask the peer to terminate the link.
  function TerminateLink(s: Session): Session {
    var t := UpdateState(s, PppTerminating);
    t.(lcp := t.lcp.(requestCode := TERM_REQUEST, options := [], state := Terminate),
       send := t.send + {SendLcpRequest})
  }

  // Give up the link at once and send a PADT.
  function AbandonLink(s: Session): Session {
    var t := UpdateState(CloseNcps(s), Terminating);
    t.(lcp := t.lcp.(state := Closed), send := {SendDiscovery})
  }

  // bbl_session_clear
  function ClearSession(s: Session): Session {
    match s.state
    case Idle | PppoeInit | IpoeSetup => UpdateState(s, Terminated)
    case PppoeRequest | PppLink => AbandonLink(s)
    case PppAuth | PppNetwork | Established | PppTerminating => TerminateLink(s)
    case Terminating | Terminated => s
  }

  predicate NcpSuccess(state: PppState) {
    state.Disabled? || state.Rejected? || state.Opened?
  }

  // bbl_access_rx_established_pppoe
  function CheckEstablished(s: Session): Session {
    if NcpSuccess(s.ipcp.state) && NcpSuccess(s.ip6cp.state) then UpdateState(s, Established) else s
  }

  // ---- Discovery

  predicate ServiceMatches(s: Session, offered: seq<Byte>) {
    offered == s.pppoe.service
  }

  predicate HostUniqMatches(cfg: Config, d: DiscoveryPacket) {
    cfg.hostUniq == 0 || d.hostUniq == Some(cfg.hostUniq)
  }

  function RxPado(cfg: Config, s: Session, d: DiscoveryPacket): Session {
    if !s.state.PppoeInit? then s else
    var heard := s.pppoe.(serverMac := d.src, cookie := if d.cookie == [] then s.pppoe.cookie else d.cookie);
    if s.pppoe.service != [] && !ServiceMatches(s, d.service) then s.(pppoe := heard)
    else if !HostUniqMatches(cfg, d) then s.(pppoe := heard.(service := d.service))
    else UpdateState(s, PppoeRequest).(pppoe := heard.(service := d.service, retries := 0), send := {SendDiscovery})
  }

  predicate AcceptsPads(cfg: Config, s: Session, d: DiscoveryPacket) {
    && s.state.PppoeRequest?
    && d.sessionId != 0
    && HostUniqMatches(cfg, d)
    && ServiceMatches(s, d.service)
  }

  function RxPads(cfg: Config, s: Session, d: DiscoveryPacket): Session {
    if !AcceptsPads(cfg, s, d) then s
    else UpdateState(s, PppLink).(
           pppoe := s.pppoe.(retries := 0, sessionId := d.sessionId), send := {SendLcpRequest},
           lcp := s.lcp.(requestCode := CONF_REQUEST, state := Init))
  }

  function RxDiscovery(cfg: Config, s: Session, d: DiscoveryPacket): Session {
    if d.code == PADO then RxPado(cfg, s, d)
    else if d.code == PADS then RxPads(cfg, s, d)
    else if d.code == PADT then UpdateState(s, Terminated).(send := {})
    else s
  }

  // ---- LCP

  function StartNcp(cp: Cp): Cp {
    cp.(state := Init, requestCode := CONF_REQUEST)
  }

  // Network phase: start every enabled NCP.
  function EnterNetwork(cfg: Config, s: Session): Session {
    var t := UpdateState(s, PppNetwork);
    var u := if cfg.ipcpEnable
             then t.(ipcp := StartNcp(t.ipcp), send := t.send + {SendIpcpRequest} - {SendIpcpResponse})
             else t;
    if cfg.ip6cpEnable
    then u.(ip6cp := StartNcp(u.ip6cp), send := u.send + {SendIp6cpRequest} - {SendIp6cpResponse})
    else u
  }

  predicate IsAuth(protocol: nat) {
    protocol == PROTOCOL_PAP || protocol == PROTOCOL_CHAP
  }

  // bbl_access_lcp_opened
  function LcpOpened(cfg: Config, s: Session): Session {
    var t := s.(lcp := s.lcp.(state := Opened));
    if t.auth == PROTOCOL_PAP then UpdateState(t, PppAuth).(send := t.send + {SendPap})
    else if t.auth == PROTOCOL_CHAP then UpdateState(t, PppAuth)
    else EnterNetwork(cfg, t)
  }

  // The protocol a Configure-Request leaves behind, whatever the answer to it.
  function NegotiatedAuth(cfg: Config, s: Session, p: LcpPacket): nat {
    if cfg.authentication == 0 then (if p.auth == 0 then s.auth else p.auth)
    else if cfg.authentication == p.auth then p.auth
    else 0
  }

  // Answer with Conf-Nak: authentication is asked for but not agreed on.
  predicate NaksAuth(cfg: Config, p: LcpPacket) {
    (p.auth != 0 || cfg.authentication != 0)
    && !(IsAuth(p.auth) && (cfg.authentication == 0 || cfg.authentication == p.auth))
  }

  // The Configure-Requests that are answered with Conf-Ack.
  predicate AcceptsLcp(cfg: Config, p: LcpPacket) {
    !p.unknownOptions && !NaksAuth(cfg, p)
  }

  function SuggestedAuth(cfg: Config): seq<Byte> {
    if cfg.authentication == PROTOCOL_CHAP then [3, 5] + Net16(PROTOCOL_CHAP) + [5]
    else [3, 4] + Net16(PROTOCOL_PAP)
  }

  function Respond(cp: Cp, code: Byte, id: Byte, options: seq<Byte>): Cp {
    cp.(responseCode := code, peerId := id, options := options)
  }

  function LcpRespond(s: Session, code: Byte, id: Byte, options: seq<Byte>): Session {
    s.(lcp := Respond(s.lcp, code, id, options), send := s.send + {SendLcpResponse})
  }

  // Option bytes are kept only when they fit the session's buffer.
  function KeptOptions(current: seq<Byte>, received: seq<Byte>): seq<Byte> {
    if |received| <= OPTIONS_BUFFER then received else current
  }

  function Truncated(raw: seq<Byte>): seq<Byte> {
    if |raw| > OPTIONS_BUFFER then raw[..OPTIONS_BUFFER] else raw
  }

  function HeardLink(link: Link, p: LcpPacket): Link {
    link.(peerMru := if p.mru == 0 then link.peerMru else p.mru,
          peerMagic := if p.magic == 0 then link.peerMagic else p.magic)
  }

  // An acceptable Configure-Request: its values and options are taken over.
  function AcceptLcp(cfg: Config, s: Session, p: LcpPacket): Session {
    var kept := KeptOptions(s.lcp.options, p.options);
    var t := s.(link := HeardLink(s.link, p), lcp := s.lcp.(options := kept));
    var u := match s.lcp.state
             case Init => t.(lcp := t.lcp.(state := PeerAck))
             case LocalAck => LcpOpened(cfg, t)
             case _ => t;
    LcpRespond(u, CONF_ACK, p.id, kept)
  }

  ghost function RxLcpConfRequest(cfg: Config, s: Session, p: LcpPacket): Session
    requires Options.WellFormed(p.options)
  {
    if p.unknownOptions then LcpRespond(s, CONF_REJECT, p.id, Options.LcpReject(p.options)) else
    var t := s.(auth := NegotiatedAuth(cfg, s, p));
    if NaksAuth(cfg, p) then LcpRespond(t, CONF_NAK, p.id, SuggestedAuth(cfg)) else AcceptLcp(cfg, t, p)
  }

  function RxLcpConfAck(cfg: Config, s: Session): Session {
    var t := s.(lcp := s.lcp.(retries := 0));
    match s.lcp.state
    case Init => t.(lcp := t.lcp.(state := LocalAck))
    case PeerAck => LcpOpened(cfg, t)
    case _ => t
  }

  function RxLcpConfNak(s: Session, p: LcpPacket): Session {
    s.(link := s.link.(mru := if p.mru == 0 then s.link.mru else p.mru,
                       magic := if p.magic == 0 then s.link.magic else p.magic),
       lcp := s.lcp.(retries := 0, requestCode := CONF_REQUEST),
       send := s.send + {SendLcpRequest})
  }

  function RxLcpVendor(cfg: Config, s: Session, p: LcpPacket): Session {
    if cfg.vendorIgnore then s
    else if cfg.connectionStatus && p.vendorKind == 1 && p.vendorValueLen > 2
    then LcpRespond(s, VENDOR_SPECIFIC, p.id, Bytes32(s.link.magic) + p.vendorOui + [2])
    else LcpRespond(s, CODE_REJECT, p.id, Truncated(p.raw))
  }

  function RxLcpTermRequest(s: Session, p: LcpPacket): Session {
    var t := s.(lcp := Respond(s.lcp, TERM_ACK, p.id, []).(state := Terminate), send := {SendLcpResponse});
    var u := if s.state.PppTerminating? then t
             else t.(lcp := t.lcp.(requestCode := TERM_REQUEST), send := {SendLcpResponse, SendLcpRequest});
    UpdateState(u, PppTerminating)
  }

  function RxLcpProtReject(s: Session, p: LcpPacket): Session {
    CheckEstablished(
      if p.protocol == PROTOCOL_IPCP then s.(ipcp := s.ipcp.(state := Rejected))
      else if p.protocol == PROTOCOL_IP6CP then s.(ip6cp := s.ip6cp.(state := Rejected))
      else s)
  }

  ghost function RxLcp(cfg: Config, s: Session, p: LcpPacket): Session
    requires Decoded(Lcp(p))
  {
    if Rank(s.state) < Rank(PppLink) then s
    else if s.state.PppTerminating? && p.code != TERM_REQUEST && p.code != TERM_ACK then s
    else if p.code == VENDOR_SPECIFIC then RxLcpVendor(cfg, s, p)
    else if p.code == CONF_REQUEST then RxLcpConfRequest(cfg, s, p)
    else if p.code == CONF_ACK then RxLcpConfAck(cfg, s)
    else if p.code == CONF_NAK then RxLcpConfNak(s, p)
    else if p.code == ECHO_REQUEST then
      (if cfg.echoRequestIgnore then s else LcpRespond(s, ECHO_REPLY, p.id, []))
    else if p.code == ECHO_REPLY then s.(lcp := s.lcp.(retries := 0))
    else if p.code == TERM_REQUEST then RxLcpTermRequest(s, p)
    else if p.code == TERM_ACK then AbandonLink(s.(lcp := s.lcp.(retries := 0)))
    else if p.code == PROT_REJECT then RxLcpProtReject(s, p)
    else LcpRespond(s, CODE_REJECT, p.id, Truncated(p.raw))
  }

  // ---- Authentication

  function RxPap(cfg: Config, s: Session, code: Byte, l2tp: bool): Session {
    if !s.state.PppAuth? then s
    else if code == PAP_ACK then EnterNetwork(cfg, s.(login := s.login.(l2tp := s.login.l2tp || l2tp)))
    else TerminateLink(s)
  }

  function RxChap(cfg: Config, s: Session, code: Byte, id: Byte, challengeLen: nat, l2tp: bool): Session {
    if !s.state.PppAuth? then s
    else if code == CHAP_CHALLENGE && challengeLen > 0 then s.(login := s.login.(chapId := id), send := s.send + {SendChap})
    else if code == CHAP_SUCCESS then EnterNetwork(cfg, s.(login := s.login.(l2tp := s.login.l2tp || l2tp)))
    else TerminateLink(s)
  }

  // ---- NCPs

  // Our Configure-Request was acknowledged.
  function OnConfAck(state: PppState): PppState {
    match state
    case Init => LocalAck
    case PeerAck => Opened
    case _ => state
  }

  // The peer's Configure-Request was accepted.
  function OnConfRequest(state: PppState): PppState {
    match state
    case Init => PeerAck
    case LocalAck => Opened
    case _ => state
  }

  function RejectProtocol(s: Session, protocol: nat): Session {
    var id := Bump(s.lcp.id);
    var t := LcpRespond(s, PROT_REJECT, id, Net16(protocol));
    t.(lcp := t.lcp.(id := id))
  }

  predicate AcceptsIpcp(p: IpcpPacket) {
    p.dns1.None? && p.dns2.None? && !p.unknownOptions
  }

  // Set the new NCP state and, when it has just opened, look whether the session is up.
  function SetIpcp(s: Session, next: PppState): Session {
    var t := s.(ipcp := s.ipcp.(state := next));
    if next.Opened? && !s.ipcp.state.Opened? then CheckEstablished(t) else t
  }

  // An opened IP6CP also solicits a router, unless the session is tunnelled.
  function SetIp6cp(s: Session, next: PppState): Session {
    var t := s.(ip6cp := s.ip6cp.(state := next));
    if next.Opened? && !s.ip6cp.state.Opened? then
      var u := CheckEstablished(t);
      if u.login.l2tp then u else u.(send := u.send + {SendRs})
    else t
  }

  function IpcpRespond(s: Session, code: Byte, id: Byte, options: seq<Byte>): Session {
    s.(ipcp := Respond(s.ipcp, code, id, options), send := s.send + {SendIpcpResponse})
  }

  function IpcpRequestAgain(s: Session): Session {
    s.(ipcp := s.ipcp.(retries := 0, requestCode := CONF_REQUEST), send := s.send + {SendIpcpRequest})
  }

  function HeardPeer(ip: Ip, p: IpcpPacket): Ip {
    if OrZero(p.address) == 0 then ip else ip.(peerAddress := p.address.value)
  }

  // Values suggested by a Conf-Nak are taken over.
  function Suggested(ip: Ip, p: IpcpPacket): Ip {
    ip.(address := if OrZero(p.address) == 0 then ip.address else p.address.value,
        dns1 := if OrZero(p.dns1) == 0 then ip.dns1 else p.dns1.value,
        dns2 := if OrZero(p.dns2) == 0 then ip.dns2 else p.dns2.value)
  }

  ghost function RxIpcp(cfg: Config, s: Session, p: IpcpPacket): Session
    requires Decoded(Ipcp(p))
  {
    if !s.lcp.state.Opened? then s
    else if !cfg.ipcpGlobal then RejectProtocol(s, PROTOCOL_IPCP)
    else if p.code == CONF_REQUEST then
      (if !AcceptsIpcp(p) then IpcpRespond(s, CONF_REJECT, p.id, Options.IpcpReject(p.options))
       else
         var t := s.(ip := HeardPeer(s.ip, p));
         IpcpRespond(SetIpcp(t, OnConfRequest(s.ipcp.state)), CONF_ACK, p.id, KeptOptions(s.ipcp.options, p.options)))
    else if p.code == CONF_REJECT then
      (if cfg.ipcpRejectIgnore then s
       else IpcpRequestAgain(s.(ip := s.ip.(wantDns1 := s.ip.wantDns1 && p.dns1.None?,
                                                wantDns2 := s.ip.wantDns2 && p.dns2.None?))))
    else if p.code == CONF_NAK then
      IpcpRequestAgain(s.(ip := Suggested(s.ip, p)))
    else if p.code == CONF_ACK then SetIpcp(s.(ipcp := s.ipcp.(retries := 0)), OnConfAck(s.ipcp.state))
    else if p.code == TERM_REQUEST then IpcpRespond(s, TERM_ACK, p.id, [])
    else if p.code == TERM_ACK then s.(ipcp := s.ipcp.(retries := 0, state := Closed))
    else s
  }

  function Ip6cpRespond(s: Session, code: Byte, id: Byte, options: seq<Byte>): Session {
    s.(ip6cp := Respond(s.ip6cp, code, id, options), send := s.send + {SendIp6cpResponse})
  }

  function HeardPeer6(ip6: Ip6, p: Ip6cpPacket): Ip6 {
    if p.interfaceId == 0 then ip6 else ip6.(peerInterfaceId := p.interfaceId)
  }

  function RxIp6cp(cfg: Config, s: Session, p: Ip6cpPacket): Session {
    if !s.lcp.state.Opened? then s
    else if !cfg.ip6cpGlobal then RejectProtocol(s, PROTOCOL_IP6CP)
    else if p.code == CONF_REQUEST then
      var t := s.(ip6 := HeardPeer6(s.ip6, p));
      Ip6cpRespond(SetIp6cp(t, OnConfRequest(s.ip6cp.state)), CONF_ACK, p.id, KeptOptions(s.ip6cp.options, p.options))
    else if p.code == CONF_NAK then
      s.(ip6 := if p.interfaceId == 0 then s.ip6 else s.ip6.(interfaceId := p.interfaceId),
         ip6cp := s.ip6cp.(retries := 0, requestCode := CONF_REQUEST),
         send := s.send + {SendIp6cpRequest})
    else if p.code == CONF_ACK then SetIp6cp(s.(ip6cp := s.ip6cp.(retries := 0)), OnConfAck(s.ip6cp.state))
    else if p.code == TERM_REQUEST then
      Ip6cpRespond(s, TERM_ACK, p.id, s.ip6cp.options)
    else if p.code == TERM_ACK then s.(ip6cp := s.ip6cp.(retries := 0, state := Closed))
    else s
  }

  // ---- Reception

  // What the decoder promises about a packet it passes on.
  predicate Decoded(p: Packet) {
    && (p.Lcp? && p.lcp.code == CONF_REQUEST ==> Options.WellFormed(p.lcp.options))
    && (p.Ipcp? && p.ipcp.code == CONF_REQUEST ==> Options.WellFormed(p.ipcp.options))
    && (p.Lcp? && p.lcp.code == VENDOR_SPECIFIC ==> |p.lcp.vendorOui| == 3)
  }

  ghost function Receive(cfg: Config, s: Session, p: Packet): Session
    requires Decoded(p)
  {
    if s.state.Terminated? || s.state.Idle? then s else
    match p
    case Discovery(d) => RxDiscovery(cfg, s, d)
    case Lcp(l) => RxLcp(cfg, s, l)
    case Pap(code, _, l2tp) => RxPap(cfg, s, code, l2tp)
    case Chap(code, id, len, l2tp) => RxChap(cfg, s, code, id, len, l2tp)
    case Ipcp(i) => RxIpcp(cfg, s, i)
    case Ip6cp(i) => RxIp6cp(cfg, s, i)
    case RouterSolicitation => s
  }

  // ---- Timers

  function OnPadrTimeout(cfg: Config, s: Session): Session {
    if !s.state.PppoeRequest? then s
    else (if s.pppoe.retries > cfg.discoveryRetry then UpdateState(s, PppoeInit) else s).(send := {SendDiscovery})
  }

  function OnLcpTimeout(cfg: Config, s: Session): Session {
    if s.state.PppLink? && !s.lcp.state.Opened? then
      (if s.lcp.retries > cfg.lcpRetry then ClearSession(s) else s.(send := s.send + {SendLcpRequest}))
    else if s.state.PppTerminating? then
      (if s.lcp.retries > 3 then AbandonLink(s) else ClearSession(s))
    else s
  }

  function OnLcpEcho(cfg: Config, s: Session): Session {
    if !s.state.Established? then s
    else if s.lcp.retries > cfg.keepaliveRetry then AbandonLink(s)
    else s.(lcp := s.lcp.(requestCode := ECHO_REQUEST, id := Bump(s.lcp.id), options := []),
            send := s.send + {SendLcpRequest})
  }

  function OnAuthTimeout(cfg: Config, s: Session, bit: SendBit): Session {
    if !s.state.PppAuth? then s
    else if s.login.retries > cfg.authRetry then ClearSession(s)
    else s.(send := s.send + {bit})
  }

  function OnIpcpTimeout(cfg: Config, s: Session): Session {
    if !s.state.PppNetwork? || s.ipcp.state.Opened? then s
    else if s.ipcp.retries > cfg.ipcpRetry then
      var t := s.(ipcp := s.ipcp.(state := Closed));
      if t.ip6cp.state.Closed? then ClearSession(t) else t
    else s.(send := s.send + {SendIpcpRequest})
  }

  function OnIp6cpTimeout(cfg: Config, s: Session): Session {
    if !s.state.PppNetwork? || s.ip6cp.state.Opened? then s
    else if s.ip6cp.retries > cfg.ip6cpRetry then
      var t := s.(ip6cp := s.ip6cp.(state := Closed));
      if t.ipcp.state.Closed? then ClearSession(t) else t
    else s.(send := s.send + {SendIp6cpRequest})
  }

  // ---- Commands

  predicate NetworkUp(s: Session) {
    s.state.Established? || s.state.PppNetwork?
  }

  function OpenIpcpNow(s: Session): Session {
    if NetworkUp(s) && s.ipcp.state.Closed?
    then s.(ipcp := StartNcp(s.ipcp), send := s.send + {SendIpcpRequest}) else s
  }

  function OpenIp6cpNow(s: Session): Session {
    if NetworkUp(s) && s.ip6cp.state.Closed?
    then s.(ip6cp := StartNcp(s.ip6cp), send := s.send + {SendIp6cpRequest}) else s
  }

  function CloseIpcpNow(s: Session): Session {
    if NetworkUp(s) && s.ipcp.state.Opened?
    then s.(ipcp := s.ipcp.(state := Terminate, requestCode := TERM_REQUEST), send := s.send + {SendIpcpRequest},
            ip := s.ip.(address := 0, peerAddress := 0, dns1 := 0, dns2 := 0))
    else s
  }

  function CloseIp6cpNow(s: Session): Session {
    if NetworkUp(s) && s.ip6cp.state.Opened?
    then s.(ip6cp := s.ip6cp.(state := Terminate, requestCode := TERM_REQUEST), send := s.send + {SendIp6cpRequest})
    else s
  }

  // The scheduler starts an idle session.
  function StartSession(s: Session): Session {
    if s.state.Idle? then s.(state := PppoeInit, send := {SendDiscovery}) else s
  }

  const BROADCAST: Mac := [255, 255, 255, 255, 255, 255]

  function ResetCp(cp: Cp): Cp {
    cp.(retries := 0)
  }

  // bbl_session_start and bbl_session_reset: a terminated session becomes idle again.
  function RestartSession(cfg: Config, s: Session): Session {
    if !s.state.Terminated? then s
    else s.(state := Idle,
            pppoe := Pppoe(BROADCAST, 0, [], if cfg.serviceName == [] then [] else s.pppoe.service, 0),
            lcp := s.lcp.(retries := 0, options := [], requestCode := 0, responseCode := 0),
            link := Link(cfg.mru, 0, s.link.magic, 0),
            auth := 0, login := s.login.(retries := 0, l2tp := false),
            ipcp := ResetCp(s.ipcp), ip6cp := ResetCp(s.ip6cp),
            ip := Ip(cfg.requestDns1, cfg.requestDns2, 0, 0, 0, 0))
  }

  // ---- Transmission

  function LcpOptionBytes(mru: nat, auth: nat, magic: nat): seq<Byte> {
    (if mru == 0 then [] else [1, 4] + Net16(mru))
    + (if auth == 0 then [] else [3, 4] + Net16(auth))
    + (if magic == 0 then [] else [5, 6] + Bytes32(magic))
  }

  function AddressOption(kind: Byte, o: Option<nat>): seq<Byte> {
    match o
    case None => []
    case Some(a) => [kind, 6] + Bytes32(a)
  }

  function LcpRequest(s: Session, id: Byte): LcpPacket {
    if s.lcp.requestCode == CONF_REQUEST
    then LcpPacket(CONF_REQUEST, id, options := LcpOptionBytes(s.link.mru, 0, s.link.magic),
                   mru := s.link.mru, magic := s.link.magic)
    else if s.lcp.requestCode == ECHO_REQUEST then LcpPacket(ECHO_REQUEST, id, magic := s.link.magic)
    else LcpPacket(s.lcp.requestCode, id)
  }

  function LcpResponse(s: Session): LcpPacket {
    if s.lcp.responseCode == ECHO_REPLY then LcpPacket(ECHO_REPLY, s.lcp.peerId, magic := s.link.magic)
    else LcpPacket(s.lcp.responseCode, s.lcp.peerId,
                   options := if s.lcp.options != [] then s.lcp.options
                              else LcpOptionBytes(s.link.peerMru, s.auth, s.link.peerMagic))
  }

  function IpcpRequest(cfg: Config, s: Session, id: Byte): IpcpPacket {
    if s.ipcp.requestCode != CONF_REQUEST then IpcpPacket(s.ipcp.requestCode, id) else
    var address := if s.ip.address != 0 || cfg.requestIp then Some(s.ip.address) else None;
    var dns1 := if s.ip.wantDns1 then Some(s.ip.dns1) else None;
    var dns2 := if s.ip.wantDns2 then Some(s.ip.dns2) else None;
    IpcpPacket(CONF_REQUEST, id, address := address, dns1 := dns1, dns2 := dns2,
               options := AddressOption(3, address) + AddressOption(129, dns1) + AddressOption(131, dns2))
  }

  // An IP6CP packet without given options carries an interface identifier.
  function InterfaceOption(interfaceId: nat): seq<Byte> {
    [1, 10] + Bytes64(interfaceId)
  }

  function Ip6cpRequest(s: Session, id: Byte): Ip6cpPacket {
    var own := if s.ip6cp.requestCode == CONF_REQUEST then s.ip6.interfaceId else 0;
    Ip6cpPacket(s.ip6cp.requestCode, id, options := InterfaceOption(own), interfaceId := own)
  }

  function Ip6cpResponse(s: Session): Ip6cpPacket {
    if s.ip6cp.options != [] then Ip6cpPacket(s.ip6cp.responseCode, s.ip6cp.peerId, options := s.ip6cp.options)
    else Ip6cpPacket(s.ip6cp.responseCode, s.ip6cp.peerId,
                     options := InterfaceOption(s.ip6.interfaceId), interfaceId := s.ip6.interfaceId)
  }

  // A request is not sent for an NCP that is closed or already open.
  predicate MayRequest(cp: Cp) {
    !cp.state.Closed? && !cp.state.Opened?
  }

  // One packet per served bit of the send mask, highest priority first.
  function Served(s: Session): Option<SendBit> {
    if SendDiscovery in s.send then Some(SendDiscovery)
    else if SendLcpRequest in s.send then Some(SendLcpRequest)
    else if SendLcpResponse in s.send then Some(SendLcpResponse)
    else if SendPap in s.send then Some(SendPap)
    else if SendChap in s.send then Some(SendChap)
    else if SendIpcpRequest in s.send then Some(SendIpcpRequest)
    else if SendIpcpResponse in s.send then Some(SendIpcpResponse)
    else if SendIp6cpRequest in s.send then Some(SendIp6cpRequest)
    else if SendIp6cpResponse in s.send then Some(SendIp6cpResponse)
    else if SendRs in s.send then Some(SendRs)
    else None
  }

  function DiscoveryFrame(cfg: Config, s: Session): seq<Packet> {
    var hostUniq := if cfg.hostUniq == 0 then None else Some(cfg.hostUniq);
    match s.state
    case PppoeInit => [Discovery(DiscoveryPacket(PADI, service := s.pppoe.service, hostUniq := hostUniq))]
    case PppoeRequest => 
      [Discovery(DiscoveryPacket(PADR, cookie := s.pppoe.cookie, service := s.pppoe.service, hostUniq := hostUniq))]
    case Terminating => [Discovery(DiscoveryPacket(PADT, sessionId := s.pppoe.sessionId))]
    case _ => []
  }

  // The frame sent for the served bit, if any.
  function Frame(cfg: Config, s: Session): seq<Packet> {
    match Served(s)
    case None => []
    case Some(SendDiscovery) => DiscoveryFrame(cfg, s)
    case Some(SendLcpRequest) => [Lcp(LcpRequest(s, Bump(s.lcp.id)))]
    case Some(SendLcpResponse) => [Lcp(LcpResponse(s))]
    case Some(SendPap) => [Pap(PAP_REQUEST, 1, false)]
    case Some(SendChap) => [Chap(CHAP_RESPONSE, s.login.chapId, 16, false)]
    case Some(SendIpcpRequest) => if MayRequest(s.ipcp) then [Ipcp(IpcpRequest(cfg, s, Bump(s.ipcp.id)))] else []
    case Some(SendIpcpResponse) => [Ipcp(IpcpPacket(s.ipcp.responseCode, s.ipcp.peerId, options := s.ipcp.options))]
    case Some(SendIp6cpRequest) => if MayRequest(s.ip6cp) then [Ip6cp(Ip6cpRequest(s, Bump(s.ip6cp.id)))] else []
    case Some(SendIp6cpResponse) => [Ip6cp(Ip6cpResponse(s))]
    case Some(SendRs) => [RouterSolicitation]
  }

  // A configure request takes a fresh identifier; refused requests do not.
  function Requested(cp: Cp): Cp {
    if MayRequest(cp) then cp.(id := Bump(cp.id), retries := Bump(cp.retries)) else cp.(retries := Bump(cp.retries))
  }

  // The session after one call of the transmit job.
  function Transmit(s: Session): Session {
    match Served(s)
    case None => s.(send := {})
    case Some(SendDiscovery) =>
      var t := if s.state.Terminating? then UpdateState(s, Terminated) else s;
      t.(send := t.send - {SendDiscovery}, pppoe := t.pppoe.(retries := Bump(t.pppoe.retries)))
    case Some(SendLcpRequest) =>
      s.(send := s.send - {SendLcpRequest}, lcp := s.lcp.(id := Bump(s.lcp.id), retries := Bump(s.lcp.retries)))
    case Some(SendPap) => s.(send := s.send - {SendPap}, login := s.login.(retries := Bump(s.login.retries)))
    case Some(SendChap) => s.(send := s.send - {SendChap}, login := s.login.(retries := Bump(s.login.retries)))
    case Some(SendIpcpRequest) => s.(send := s.send - {SendIpcpRequest}, ipcp := Requested(s.ipcp))
    case Some(SendIp6cpRequest) => s.(send := s.send - {SendIp6cpRequest}, ip6cp := Requested(s.ip6cp))
    case Some(bit) => s.(send := s.send - {bit})
  }

  // ---- One step

  ghost function Step(cfg: Config, s: Session, e: Event): Session
    requires e.Rx? ==> Decoded(e.packet)
  {
    match e
    case Rx(p) => Receive(cfg, s, p)
    case Tx => Transmit(s)
    case PadiTimeout => if s.state.PppoeInit? then s.(send := {SendDiscovery}) else s
    case PadrTimeout => OnPadrTimeout(cfg, s)
    case LcpTimeout => OnLcpTimeout(cfg, s)
    case LcpStartDelay => s.(send := s.send + {SendLcpRequest}, lcp := s.lcp.(requestCode := CONF_REQUEST))
    case LcpEcho => OnLcpEcho(cfg, s)
    case PapTimeout => OnAuthTimeout(cfg, s, SendPap)
    case ChapTimeout => OnAuthTimeout(cfg, s, SendChap)
    case IpcpTimeout => OnIpcpTimeout(cfg, s)
    case Ip6cpTimeout => OnIp6cpTimeout(cfg, s)
    case SessionTimeout => if s.state.Established? then ClearSession(s) else s
    case Clear => ClearSession(s)
    case OpenIpcp => OpenIpcpNow(s)
    case OpenIp6cp => OpenIp6cpNow(s)
    case CloseIpcp => CloseIpcpNow(s)
    case CloseIp6cp => CloseIp6cpNow(s)
    case Start => StartSession(s)
    case Restart => RestartSession(cfg, s)
  }
}
