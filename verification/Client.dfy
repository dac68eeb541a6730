/**
 The client as the program keeps it: one object per session whose handlers
 update its fields in place. Every handler is proved to make the step that the
 specification prescribes.
 */
module Client {
  import opened Types
  import Spec = ClientSpec
  import Options

  class PppoeClient {
    const cfg: Config
    var state: SessionState
    var send: set<SendBit>
    var pppoe: Pppoe
    var lcp: Cp
    var link: Link
    var auth: nat
    var login: Login
    var ipcp: Cp
    var ip: Ip
    var ip6cp: Cp
    var ip6: Ip6

    function Snapshot(): Session
      reads this
    {
      Session(state, send, pppoe, lcp, link, auth, login, ipcp, ip, ip6cp, ip6)
    }

    constructor (cfg: Config, s: Session)
      ensures this.cfg == cfg && Snapshot() == s
    {
      this.cfg := cfg;
      state, send, pppoe, lcp, link, auth := s.state, s.send, s.pppoe, s.lcp, s.link, s.auth;
      login, ipcp, ip, ip6cp, ip6 := s.login, s.ipcp, s.ip, s.ip6cp, s.ip6;
    }

    // ---- Session state

    method CloseNcps()
      modifies this`ipcp, this`ip6cp
      ensures Snapshot() == Spec.CloseNcps(old(Snapshot()))
    {
      if !ipcp.state.Disabled? {
        ipcp := ipcp.(state := Closed);
      }
      if !ip6cp.state.Disabled? {
        ip6cp := ip6cp.(state := Closed);
      }
    }

    // bbl_session_update_state
    method UpdateState(next: SessionState)
      modifies this`state, this`lcp, this`ipcp, this`ip6cp
      ensures Snapshot() == Spec.UpdateState(old(Snapshot()), next)
    {
      if state != next {
        state := next;
        if next.PppTerminating? {
          CloseNcps();
        } else if next.Terminated? {
          lcp := lcp.(state := Closed);
          CloseNcps();
        }
      }
    }

    method TerminateLink()
      modifies this
      ensures Snapshot() == Spec.TerminateLink(old(Snapshot()))
    {
      UpdateState(PppTerminating);
      lcp := lcp.(requestCode := TERM_REQUEST, options := [], state := Terminate);
      send := send + {SendLcpRequest};
    }

    method AbandonLink()
      modifies this
      ensures Snapshot() == Spec.AbandonLink(old(Snapshot()))
    {
      CloseNcps();
      send := {SendDiscovery};
      UpdateState(Terminating);
      lcp := lcp.(state := Closed);
    }

    // bbl_session_clear
    method Clear()
      modifies this
      ensures Snapshot() == Spec.ClearSession(old(Snapshot()))
    {
      hide Spec.UpdateState, Spec.AbandonLink, Spec.TerminateLink;
      match state {
        case Idle | PppoeInit | IpoeSetup => UpdateState(Terminated);
        case PppoeRequest | PppLink => AbandonLink();
        case PppAuth | PppNetwork | Established | PppTerminating => TerminateLink();
        case Terminating | Terminated =>
      }
    }

    // bbl_access_rx_established_pppoe
    method CheckEstablished()
      modifies this
      ensures Snapshot() == Spec.CheckEstablished(old(Snapshot()))
    {
      if Spec.NcpSuccess(ipcp.state) && Spec.NcpSuccess(ip6cp.state) {
        if !state.Established? {
          UpdateState(Established);
        }
      }
    }

    // ---- Discovery

    method RxPado(d: DiscoveryPacket)
      modifies this
      ensures Snapshot() == Spec.RxPado(cfg, old(Snapshot()), d)
    {
      if !state.PppoeInit? {
        return;
      }
      pppoe := pppoe.(serverMac := d.src);
      if d.cookie != [] {
        pppoe := pppoe.(cookie := d.cookie);
      }
      if d.service != [] {
        if pppoe.service != [] {
          if d.service != pppoe.service {
            return;
          }
        } else {
          pppoe := pppoe.(service := d.service);
        }
      } else if pppoe.service != [] {
        return;
      }
      if cfg.hostUniq != 0 && d.hostUniq != Some(cfg.hostUniq) {
        return;
      }
      UpdateState(PppoeRequest);
      pppoe := pppoe.(retries := 0);
      send := {SendDiscovery};
    }

    method RxPads(d: DiscoveryPacket)
      modifies this
      ensures Snapshot() == Spec.RxPads(cfg, old(Snapshot()), d)
    {
      if !state.PppoeRequest? || d.sessionId == 0 {
        return;
      }
      if cfg.hostUniq != 0 && d.hostUniq != Some(cfg.hostUniq) {
        return;
      }
      if d.service != [] {
        if d.service != pppoe.service {
          return;
        }
      } else if pppoe.service != [] {
        return;
      }
      pppoe := pppoe.(retries := 0, sessionId := d.sessionId);
      UpdateState(PppLink);
      send := {SendLcpRequest};
      lcp := lcp.(requestCode := CONF_REQUEST, state := Init);
    }

    method RxDiscovery(d: DiscoveryPacket)
      modifies this
      ensures Snapshot() == Spec.RxDiscovery(cfg, old(Snapshot()), d)
    {
      hide Spec.RxPado, Spec.RxPads, Spec.UpdateState;
      if d.code == PADO {
        RxPado(d);
      } else if d.code == PADS {
        RxPads(d);
      } else if d.code == PADT {
        UpdateState(Terminated);
        send := {};
      }
    }

    // ---- LCP

    method EnterNetwork()
      modifies this
      ensures Snapshot() == Spec.EnterNetwork(cfg, old(Snapshot()))
    {
      hide Spec.UpdateState;
      UpdateState(PppNetwork);
      if cfg.ipcpEnable {
        ipcp := ipcp.(state := Init, requestCode := CONF_REQUEST);
        send := send + {SendIpcpRequest};
        send := send - {SendIpcpResponse};
      }
      if cfg.ip6cpEnable {
        ip6cp := ip6cp.(state := Init, requestCode := CONF_REQUEST);
        send := send + {SendIp6cpRequest};
        send := send - {SendIp6cpResponse};
      }
    }

    // bbl_access_lcp_opened
    method LcpOpened()
      modifies this
      ensures Snapshot() == Spec.LcpOpened(cfg, old(Snapshot()))
    {
      hide Spec.UpdateState, Spec.EnterNetwork;
      lcp := lcp.(state := Opened);
      if auth == PROTOCOL_PAP {
        UpdateState(PppAuth);
        send := send + {SendPap};
      } else if auth == PROTOCOL_CHAP {
        UpdateState(PppAuth);
      } else {
        EnterNetwork();
      }
    }

    method LcpRespond(code: Byte, id: Byte, options: seq<Byte>)
      modifies this`lcp, this`send
      ensures Snapshot() == Spec.LcpRespond(old(Snapshot()), code, id, options)
    {
      lcp := lcp.(options := options);
      lcp := lcp.(peerId := id);
      lcp := lcp.(responseCode := code);
      send := send + {SendLcpResponse};
    }

    method RxLcpConfReject(p: LcpPacket)
      requires Options.WellFormed(p.options)
      modifies this`lcp, this`send
      ensures Snapshot() == Spec.LcpRespond(old(Snapshot()), CONF_REJECT, p.id, Options.LcpReject(p.options))
    {
      var buffer := new Byte[OPTIONS_BUFFER](_ => 0);
      var len := Options.FilterLcp(p.options, buffer);
      LcpRespond(CONF_REJECT, p.id, buffer[..len]);
    }

    // Negotiate the authentication protocol; false if the request is refused.
    method NegotiateAuth(p: LcpPacket) returns (ok: bool)
      modifies this`auth
      ensures ok == !Spec.NaksAuth(cfg, p)
      ensures auth == Spec.NegotiatedAuth(cfg, old(Snapshot()), p)
      ensures Snapshot() == old(Snapshot()).(auth := auth)
    {
      ok := true;
      if p.auth != 0 || cfg.authentication != 0 {
        auth := p.auth;
        if cfg.authentication != 0 && cfg.authentication != p.auth {
          auth := 0;
        }
        if !(auth == PROTOCOL_CHAP || auth == PROTOCOL_PAP) {
          ok := false;
        }
      }
    }

    method RxLcpConfRequest(p: LcpPacket)
      requires Options.WellFormed(p.options)
      modifies this
      ensures Snapshot() == Spec.RxLcpConfRequest(cfg, old(Snapshot()), p)
    {
      hide Spec.AcceptLcp, Spec.LcpRespond, Spec.NaksAuth, Spec.NegotiatedAuth, Options.LcpReject, Options.WellFormed,
           Spec.SuggestedAuth;
      if p.unknownOptions {
        RxLcpConfReject(p);
        return;
      }
      var ok := NegotiateAuth(p);
      if !ok {
        LcpRespond(CONF_NAK, p.id, Spec.SuggestedAuth(cfg));
        return;
      }
      AcceptLcp(p);
    }

    // The rest of RxLcpConfRequest once the request is acceptable.
    method AcceptLcp(p: LcpPacket)
      modifies this
      ensures Snapshot() == Spec.AcceptLcp(cfg, old(Snapshot()), p)
    {
      hide Spec.LcpOpened;
      if p.mru != 0 {
        link := link.(peerMru := p.mru);
      }
      if p.magic != 0 {
        link := link.(peerMagic := p.magic);
      }
      if |p.options| <= OPTIONS_BUFFER {
        lcp := lcp.(options := p.options);
      }
      var kept := lcp.options;
      match lcp.state {
        case Init => lcp := lcp.(state := PeerAck);
        case LocalAck => LcpOpened();
        case _ =>
      }
      LcpRespond(CONF_ACK, p.id, kept);
    }

    method RxLcpConfAck()
      modifies this
      ensures Snapshot() == Spec.RxLcpConfAck(cfg, old(Snapshot()))
    {
      hide Spec.LcpOpened;
      lcp := lcp.(retries := 0);
      match lcp.state {
        case Init => lcp := lcp.(state := LocalAck);
        case PeerAck => LcpOpened();
        case _ =>
      }
    }

    method RxLcpConfNak(p: LcpPacket)
      modifies this
      ensures Snapshot() == Spec.RxLcpConfNak(old(Snapshot()), p)
    {
      lcp := lcp.(retries := 0);
      if p.mru != 0 {
        link := link.(mru := p.mru);
      }
      if p.magic != 0 {
        link := link.(magic := p.magic);
      }
      send := send + {SendLcpRequest};
      lcp := lcp.(requestCode := CONF_REQUEST);
    }

    method RxLcpVendor(p: LcpPacket)
      modifies this
      ensures Snapshot() == Spec.RxLcpVendor(cfg, old(Snapshot()), p)
    {
      hide Bytes32;
      if cfg.vendorIgnore {
        return;
      }
      if cfg.connectionStatus && p.vendorKind == 1 && p.vendorValueLen > 2 {
        LcpRespond(VENDOR_SPECIFIC, p.id, Bytes32(link.magic) + p.vendorOui + [2]);
      } else {
        RejectCode(p);
      }
    }

    method RejectCode(p: LcpPacket)
      modifies this`lcp, this`send
      ensures Snapshot() == Spec.LcpRespond(old(Snapshot()), CODE_REJECT, p.id, Spec.Truncated(p.raw))
    {
      if |p.raw| > OPTIONS_BUFFER {
        LcpRespond(CODE_REJECT, p.id, p.raw[..OPTIONS_BUFFER]);
      } else {
        LcpRespond(CODE_REJECT, p.id, p.raw);
      }
    }

    method RxLcpTermRequest(p: LcpPacket)
      modifies this
      ensures Snapshot() == Spec.RxLcpTermRequest(old(Snapshot()), p)
    {
      lcp := lcp.(peerId := p.id, responseCode := TERM_ACK, options := [], state := Terminate);
      send := {SendLcpResponse};
      if !state.PppTerminating? {
        lcp := lcp.(requestCode := TERM_REQUEST);
        send := send + {SendLcpRequest};
      }
      UpdateState(PppTerminating);
    }

    method RxLcpProtReject(p: LcpPacket)
      modifies this
      ensures Snapshot() == Spec.RxLcpProtReject(old(Snapshot()), p)
    {
      hide Spec.CheckEstablished;
      if p.protocol == PROTOCOL_IPCP {
        ipcp := ipcp.(state := Rejected);
      } else if p.protocol == PROTOCOL_IP6CP {
        ip6cp := ip6cp.(state := Rejected);
      }
      CheckEstablished();
    }

    // bbl_access_rx_lcp
    method RxLcp(p: LcpPacket)
      requires Spec.Decoded(Lcp(p))
      modifies this
      ensures Snapshot() == Spec.RxLcp(cfg, old(Snapshot()), p)
    {
      hide Spec.RxLcpVendor, Spec.RxLcpConfRequest, Spec.RxLcpConfAck, Spec.RxLcpConfNak, Spec.LcpRespond,
           Spec.RxLcpTermRequest, Spec.AbandonLink, Spec.RxLcpProtReject, Spec.Truncated, Options.WellFormed;
      if Rank(state) < Rank(PppLink) {
        return;
      }
      if state.PppTerminating? && !(p.code == TERM_REQUEST || p.code == TERM_ACK) {
        return;
      }
      if p.code == VENDOR_SPECIFIC {
        RxLcpVendor(p);
      } else if p.code == CONF_REQUEST {
        RxLcpConfRequest(p);
      } else if p.code == CONF_ACK {
        RxLcpConfAck();
      } else if p.code == CONF_NAK {
        RxLcpConfNak(p);
      } else if p.code == ECHO_REQUEST {
        if !cfg.echoRequestIgnore {
          LcpRespond(ECHO_REPLY, p.id, []);
        }
      } else if p.code == ECHO_REPLY {
        lcp := lcp.(retries := 0);
      } else if p.code == TERM_REQUEST {
        RxLcpTermRequest(p);
      } else if p.code == TERM_ACK {
        lcp := lcp.(retries := 0);
        AbandonLink();
      } else if p.code == PROT_REJECT {
        RxLcpProtReject(p);
      } else {
        RejectCode(p);
      }
    }

    // ---- Authentication

    // bbl_access_rx_pap
    method RxPap(code: Byte, tunnelled: bool)
      modifies this
      ensures Snapshot() == Spec.RxPap(cfg, old(Snapshot()), code, tunnelled)
    {
      hide Spec.EnterNetwork, Spec.TerminateLink;
      if state.PppAuth? {
        if code == PAP_ACK {
          if tunnelled {
            login := login.(l2tp := true);
          }
          EnterNetwork();
        } else {
          TerminateLink();
        }
      }
    }

    // bbl_access_rx_chap
    method RxChap(code: Byte, id: Byte, challengeLen: nat, tunnelled: bool)
      modifies this
      ensures Snapshot() == Spec.RxChap(cfg, old(Snapshot()), code, id, challengeLen, tunnelled)
    {
      hide Spec.EnterNetwork, Spec.TerminateLink;
      if state.PppAuth? {
        if code == CHAP_CHALLENGE {
          if challengeLen == 0 {
            TerminateLink();
          } else {
            login := login.(chapId := id);
            send := send + {SendChap};
          }
        } else if code == CHAP_SUCCESS {
          if tunnelled {
            login := login.(l2tp := true);
          }
          EnterNetwork();
        } else {
          TerminateLink();
        }
      }
    }

    // ---- NCPs

    method RejectProtocol(protocol: nat)
      modifies this`lcp, this`send
      ensures Snapshot() == Spec.RejectProtocol(old(Snapshot()), protocol)
    {
      lcp := lcp.(id := Bump(lcp.id));
      LcpRespond(PROT_REJECT, lcp.id, Net16(protocol));
    }

    method IpcpRespond(code: Byte, id: Byte, options: seq<Byte>)
      modifies this`ipcp, this`send
      ensures Snapshot() == Spec.IpcpRespond(old(Snapshot()), code, id, options)
    {
      ipcp := ipcp.(options := options);
      ipcp := ipcp.(peerId := id);
      ipcp := ipcp.(responseCode := code);
      send := send + {SendIpcpResponse};
    }

    method RxIpcpConfReject(p: IpcpPacket)
      requires Options.WellFormed(p.options)
      modifies this`ipcp, this`send
      ensures Snapshot() == Spec.IpcpRespond(old(Snapshot()), CONF_REJECT, p.id, Options.IpcpReject(p.options))
    {
      var buffer := new Byte[OPTIONS_BUFFER](_ => 0);
      var len := Options.FilterIpcp(p.options, buffer);
      IpcpRespond(CONF_REJECT, p.id, buffer[..len]);
    }

    method AcceptIpcp(p: IpcpPacket)
      modifies this
      ensures var s := old(Snapshot());
        Snapshot() == Spec.IpcpRespond(Spec.SetIpcp(s.(ip := Spec.HeardPeer(s.ip, p)), Spec.OnConfRequest(s.ipcp.state)),
                                       CONF_ACK, p.id, Spec.KeptOptions(s.ipcp.options, p.options))
    {
      hide Spec.CheckEstablished;
      if OrZero(p.address) != 0 {
        ip := ip.(peerAddress := p.address.value);
      }
      var kept := if |p.options| <= OPTIONS_BUFFER then p.options else ipcp.options;
      match ipcp.state {
        case Init => ipcp := ipcp.(state := PeerAck);
        case LocalAck =>
          ipcp := ipcp.(state := Opened);
          CheckEstablished();
        case _ =>
      }
      IpcpRespond(CONF_ACK, p.id, kept);
    }

    method RxIpcpConfAck()
      modifies this
      ensures var s := old(Snapshot());
        Snapshot() == Spec.SetIpcp(s.(ipcp := s.ipcp.(retries := 0)), Spec.OnConfAck(s.ipcp.state))
    {
      hide Spec.CheckEstablished;
      ipcp := ipcp.(retries := 0);
      match ipcp.state {
        case Init => ipcp := ipcp.(state := LocalAck);
        case PeerAck =>
          ipcp := ipcp.(state := Opened);
          CheckEstablished();
        case _ =>
      }
    }

    method RxIpcpSuggestion(p: IpcpPacket)
      modifies this
      ensures var s := old(Snapshot()); Snapshot() == Spec.IpcpRequestAgain(s.(ip := Spec.Suggested(s.ip, p)))
    {
      ipcp := ipcp.(retries := 0);
      if OrZero(p.address) != 0 {
        ip := ip.(address := p.address.value);
      }
      if OrZero(p.dns1) != 0 {
        ip := ip.(dns1 := p.dns1.value);
      }
      if OrZero(p.dns2) != 0 {
        ip := ip.(dns2 := p.dns2.value);
      }
      send := send + {SendIpcpRequest};
      ipcp := ipcp.(requestCode := CONF_REQUEST);
    }

    method RxIpcpRejected(p: IpcpPacket)
      modifies this
      ensures var s := old(Snapshot());
        Snapshot() == if cfg.ipcpRejectIgnore then s
                      else Spec.IpcpRequestAgain(s.(ip := s.ip.(wantDns1 := s.ip.wantDns1 && p.dns1.None?,
                                                                wantDns2 := s.ip.wantDns2 && p.dns2.None?)))
    {
      if !cfg.ipcpRejectIgnore {
        ipcp := ipcp.(retries := 0);
        if p.dns1.Some? {
          ip := ip.(wantDns1 := false);
        }
        if p.dns2.Some? {
          ip := ip.(wantDns2 := false);
        }
        send := send + {SendIpcpRequest};
        ipcp := ipcp.(requestCode := CONF_REQUEST);
      }
    }

    // bbl_access_rx_ipcp
    method RxIpcp(p: IpcpPacket)
      requires Spec.Decoded(Ipcp(p))
      modifies this
      ensures Snapshot() == Spec.RxIpcp(cfg, old(Snapshot()), p)
    {
      hide Spec.RejectProtocol, Spec.IpcpRespond, Spec.SetIpcp, Spec.IpcpRequestAgain, Spec.HeardPeer, Spec.Suggested,
           Spec.KeptOptions, Spec.OnConfAck, Spec.OnConfRequest, Options.IpcpReject, Options.WellFormed;
      if !lcp.state.Opened? {
        return;
      }
      if !cfg.ipcpGlobal {
        RejectProtocol(PROTOCOL_IPCP);
        return;
      }
      if p.code == CONF_REQUEST {
        if p.dns1.Some? || p.dns2.Some? || p.unknownOptions {
          RxIpcpConfReject(p);
          return;
        }
        AcceptIpcp(p);
      } else if p.code == CONF_REJECT {
        RxIpcpRejected(p);
      } else if p.code == CONF_NAK {
        RxIpcpSuggestion(p);
      } else if p.code == CONF_ACK {
        RxIpcpConfAck();
      } else if p.code == TERM_REQUEST {
        IpcpRespond(TERM_ACK, p.id, []);
      } else if p.code == TERM_ACK {
        ipcp := ipcp.(retries := 0, state := Closed);
      }
    }

    method Ip6cpRespond(code: Byte, id: Byte, options: seq<Byte>)
      modifies this`ip6cp, this`send
      ensures Snapshot() == Spec.Ip6cpRespond(old(Snapshot()), code, id, options)
    {
      ip6cp := ip6cp.(options := options);
      ip6cp := ip6cp.(peerId := id);
      ip6cp := ip6cp.(responseCode := code);
      send := send + {SendIp6cpResponse};
    }

    method Ip6cpOpened()
      modifies this
      ensures var t := Spec.CheckEstablished(old(Snapshot()));
        Snapshot() == if t.login.l2tp then t else t.(send := t.send + {SendRs})
    {
      hide Spec.CheckEstablished;
      CheckEstablished();
      if !login.l2tp {
        send := send + {SendRs};
      }
    }

    method AcceptIp6cp(p: Ip6cpPacket)
      modifies this
      ensures var s := old(Snapshot());
        Snapshot() == Spec.Ip6cpRespond(
                        Spec.SetIp6cp(s.(ip6 := Spec.HeardPeer6(s.ip6, p)), Spec.OnConfRequest(s.ip6cp.state)),
                        CONF_ACK, p.id, Spec.KeptOptions(s.ip6cp.options, p.options))
    {
      hide Spec.CheckEstablished;
      if p.interfaceId != 0 {
        ip6 := ip6.(peerInterfaceId := p.interfaceId);
      }
      var kept := if |p.options| <= OPTIONS_BUFFER then p.options else ip6cp.options;
      match ip6cp.state {
        case Init => ip6cp := ip6cp.(state := PeerAck);
        case LocalAck =>
          ip6cp := ip6cp.(state := Opened);
          Ip6cpOpened();
        case _ =>
      }
      Ip6cpRespond(CONF_ACK, p.id, kept);
    }

    method RxIp6cpConfAck()
      modifies this
      ensures var s := old(Snapshot());
        Snapshot() == Spec.SetIp6cp(s.(ip6cp := s.ip6cp.(retries := 0)), Spec.OnConfAck(s.ip6cp.state))
    {
      hide Spec.CheckEstablished;
      ip6cp := ip6cp.(retries := 0);
      match ip6cp.state {
        case Init => ip6cp := ip6cp.(state := LocalAck);
        case PeerAck =>
          ip6cp := ip6cp.(state := Opened);
          Ip6cpOpened();
        case _ =>
      }
    }

    // bbl_access_rx_ip6cp
    method RxIp6cp(p: Ip6cpPacket)
      modifies this
      ensures Snapshot() == Spec.RxIp6cp(cfg, old(Snapshot()), p)
    {
      hide Spec.RejectProtocol, Spec.Ip6cpRespond, Spec.SetIp6cp, Spec.HeardPeer6, Spec.KeptOptions, Spec.OnConfAck,
           Spec.OnConfRequest;
      if !lcp.state.Opened? {
        return;
      }
      if !cfg.ip6cpGlobal {
        RejectProtocol(PROTOCOL_IP6CP);
        return;
      }
      if p.code == CONF_REQUEST {
        AcceptIp6cp(p);
      } else if p.code == CONF_NAK {
        ip6cp := ip6cp.(retries := 0);
        if p.interfaceId != 0 {
          ip6 := ip6.(interfaceId := p.interfaceId);
        }
        send := send + {SendIp6cpRequest};
        ip6cp := ip6cp.(requestCode := CONF_REQUEST);
      } else if p.code == CONF_ACK {
        RxIp6cpConfAck();
      } else if p.code == TERM_REQUEST {
        Ip6cpRespond(TERM_ACK, p.id, ip6cp.options);
      } else if p.code == TERM_ACK {
        ip6cp := ip6cp.(retries := 0, state := Closed);
      }
    }

    // bbl_access_rx_handler and bbl_access_rx_session
    method Receive(p: Packet)
      requires Spec.Decoded(p)
      modifies this
      ensures Snapshot() == Spec.Receive(cfg, old(Snapshot()), p)
    {
      hide Spec.RxDiscovery, Spec.RxLcp, Spec.RxPap, Spec.RxChap, Spec.RxIpcp, Spec.RxIp6cp;
      if state.Terminated? || state.Idle? {
        return;
      }
      match p {
        case Discovery(d) => RxDiscovery(d);
        case Lcp(l) => RxLcp(l);
        case Pap(code, _, tunnelled) => RxPap(code, tunnelled);
        case Chap(code, id, len, tunnelled) => RxChap(code, id, len, tunnelled);
        case Ipcp(i) => RxIpcp(i);
        case Ip6cp(i) => RxIp6cp(i);
        case RouterSolicitation =>
      }
    }

    // ---- Timers and commands

    // bbl_access_lcp_echo
    method LcpEcho()
      modifies this
      ensures Snapshot() == Spec.OnLcpEcho(cfg, old(Snapshot()))
    {
      hide Spec.AbandonLink;
      if state.Established? {
        if lcp.retries > cfg.keepaliveRetry {
          AbandonLink();
        } else {
          lcp := lcp.(requestCode := ECHO_REQUEST, id := Bump(lcp.id), options := []);
          send := send + {SendLcpRequest};
        }
      }
    }

    // bbl_lcp_timeout
    method LcpTimeout()
      modifies this
      ensures Snapshot() == Spec.OnLcpTimeout(cfg, old(Snapshot()))
    {
      hide Spec.AbandonLink, Spec.ClearSession;
      if state.PppLink? && !lcp.state.Opened? {
        if lcp.retries > cfg.lcpRetry {
          Clear();
        } else {
          send := send + {SendLcpRequest};
        }
      } else if state.PppTerminating? {
        if lcp.retries > 3 {
          AbandonLink();
        } else {
          Clear();
        }
      }
    }

    // bbl_padr_timeout
    method PadrTimeout()
      modifies this
      ensures Snapshot() == Spec.OnPadrTimeout(cfg, old(Snapshot()))
    {
      if state.PppoeRequest? {
        if pppoe.retries > cfg.discoveryRetry {
          UpdateState(PppoeInit);
        }
        send := {SendDiscovery};
      }
    }

    // bbl_tx_pap_timeout and bbl_tx_chap_timeout
    method AuthTimeout(bit: SendBit)
      modifies this
      ensures Snapshot() == Spec.OnAuthTimeout(cfg, old(Snapshot()), bit)
    {
      hide Spec.ClearSession;
      if state.PppAuth? {
        if login.retries > cfg.authRetry {
          Clear();
        } else {
          send := send + {bit};
        }
      }
    }

    // bbl_ipcp_timeout
    method IpcpTimeout()
      modifies this
      ensures Snapshot() == Spec.OnIpcpTimeout(cfg, old(Snapshot()))
    {
      hide Spec.ClearSession;
      if state.PppNetwork? && !ipcp.state.Opened? {
        if ipcp.retries > cfg.ipcpRetry {
          ipcp := ipcp.(state := Closed);
          if ipcp.state.Closed? && ip6cp.state.Closed? {
            Clear();
          }
        } else {
          send := send + {SendIpcpRequest};
        }
      }
    }

    // bbl_tx_ip6cp_timeout
    method Ip6cpTimeout()
      modifies this
      ensures Snapshot() == Spec.OnIp6cpTimeout(cfg, old(Snapshot()))
    {
      hide Spec.ClearSession;
      if state.PppNetwork? && !ip6cp.state.Opened? {
        if ip6cp.retries > cfg.ip6cpRetry {
          ip6cp := ip6cp.(state := Closed);
          if ipcp.state.Closed? && ip6cp.state.Closed? {
            Clear();
          }
        } else {
          send := send + {SendIp6cpRequest};
        }
      }
    }

    // bbl_padi_timeout
    method PadiTimeout()
      modifies this
      ensures Snapshot() == Spec.Step(cfg, old(Snapshot()), Spec.PadiTimeout)
    {
      if state.PppoeInit? {
        send := {SendDiscovery};
      }
    }

    // bbl_access_lcp_start_delay
    method LcpStartDelay()
      modifies this
      ensures Snapshot() == Spec.Step(cfg, old(Snapshot()), Spec.LcpStartDelay)
    {
      send := send + {SendLcpRequest};
      lcp := lcp.(requestCode := CONF_REQUEST);
    }

    // bbl_access_session_timeout
    method SessionTimeout()
      modifies this
      ensures Snapshot() == Spec.Step(cfg, old(Snapshot()), Spec.SessionTimeout)
    {
      if state.Established? {
        Clear();
      }
    }

    // bbl_session_ncp_open
    method OpenNcp(ipv4: bool)
      modifies this
      ensures Snapshot() == if ipv4 then Spec.OpenIpcpNow(old(Snapshot())) else Spec.OpenIp6cpNow(old(Snapshot()))
    {
      if state.Established? || state.PppNetwork? {
        if ipv4 {
          if ipcp.state.Closed? {
            ipcp := ipcp.(state := Init, requestCode := CONF_REQUEST);
            send := send + {SendIpcpRequest};
          }
        } else {
          if ip6cp.state.Closed? {
            ip6cp := ip6cp.(state := Init, requestCode := CONF_REQUEST);
            send := send + {SendIp6cpRequest};
          }
        }
      }
    }

    // bbl_session_ncp_close
    method CloseNcp(ipv4: bool)
      modifies this
      ensures Snapshot() == if ipv4 then Spec.CloseIpcpNow(old(Snapshot())) else Spec.CloseIp6cpNow(old(Snapshot()))
    {
      if state.Established? || state.PppNetwork? {
        if ipv4 {
          if ipcp.state.Opened? {
            ipcp := ipcp.(state := Terminate, requestCode := TERM_REQUEST);
            send := send + {SendIpcpRequest};
            ip := ip.(address := 0, peerAddress := 0, dns1 := 0, dns2 := 0);
          }
        } else {
          if ip6cp.state.Opened? {
            ip6cp := ip6cp.(state := Terminate, requestCode := TERM_REQUEST);
            send := send + {SendIp6cpRequest};
          }
        }
      }
    }

    // The scheduler starts an idle session.
    method Start()
      modifies this
      ensures Snapshot() == Spec.StartSession(old(Snapshot()))
    {
      if state.Idle? {
        state := PppoeInit;
        send := {SendDiscovery};
      }
    }

    // bbl_session_start and bbl_session_reset
    method Restart()
      modifies this
      ensures Snapshot() == Spec.RestartSession(cfg, old(Snapshot()))
    {
      if state.Terminated? {
        state := Idle;
        var service := if cfg.serviceName == [] then [] else pppoe.service;
        pppoe := Pppoe(Spec.BROADCAST, 0, [], service, 0);
        lcp := lcp.(retries := 0, options := [], requestCode := 0, responseCode := 0);
        auth := 0;
        login := login.(retries := 0, l2tp := false);
        ipcp := ipcp.(retries := 0);
        ip6cp := ip6cp.(retries := 0);
        link := Link(cfg.mru, 0, link.magic, 0);
        ip := Ip(cfg.requestDns1, cfg.requestDns2, 0, 0, 0, 0);
      }
    }

    // ---- Transmission

    // bbl_tx_encode_packet: serve one bit of the send mask.
    method Transmit() returns (frames: seq<Packet>)
      modifies this
      ensures Snapshot() == Spec.Transmit(old(Snapshot()))
      ensures frames == Spec.Frame(cfg, old(Snapshot()))
    {
      if SendDiscovery in send {
        frames := TransmitDiscovery();
      } else if SendLcpRequest in send {
        frames := [Lcp(Spec.LcpRequest(Snapshot(), Bump(lcp.id)))];
        lcp := lcp.(id := Bump(lcp.id), retries := Bump(lcp.retries));
        send := send - {SendLcpRequest};
      } else if SendLcpResponse in send {
        frames := [Lcp(Spec.LcpResponse(Snapshot()))];
        send := send - {SendLcpResponse};
      } else if SendPap in send {
        frames := [Pap(PAP_REQUEST, 1, false)];
        send := send - {SendPap};
        login := login.(retries := Bump(login.retries));
      } else if SendChap in send {
        frames := [Chap(CHAP_RESPONSE, login.chapId, 16, false)];
        send := send - {SendChap};
        login := login.(retries := Bump(login.retries));
      } else {
        frames := TransmitNcp();
      }
    }

    method TransmitDiscovery() returns (frames: seq<Packet>)
      requires SendDiscovery in send
      modifies this
      ensures Snapshot() == Spec.Transmit(old(Snapshot()))
      ensures frames == Spec.DiscoveryFrame(cfg, old(Snapshot()))
    {
      frames := Spec.DiscoveryFrame(cfg, Snapshot());
      if state.Terminating? {
        UpdateState(Terminated);
      }
      send := send - {SendDiscovery};
      pppoe := pppoe.(retries := Bump(pppoe.retries));
    }

    method TransmitNcp() returns (frames: seq<Packet>)
      requires send !! {SendDiscovery, SendLcpRequest, SendLcpResponse, SendPap, SendChap}
      modifies this
      ensures Snapshot() == Spec.Transmit(old(Snapshot()))
      ensures frames == Spec.Frame(cfg, old(Snapshot()))
    {
      hide Spec.IpcpRequest, Spec.Ip6cpRequest;
      frames := [];
      if SendIpcpRequest in send {
        if !ipcp.state.Closed? && !ipcp.state.Opened? {
          frames := [Ipcp(Spec.IpcpRequest(cfg, Snapshot(), Bump(ipcp.id)))];
          ipcp := ipcp.(id := Bump(ipcp.id));
        }
        send := send - {SendIpcpRequest};
        ipcp := ipcp.(retries := Bump(ipcp.retries));
      } else if SendIpcpResponse in send {
        frames := [Ipcp(IpcpPacket(ipcp.responseCode, ipcp.peerId, options := ipcp.options))];
        send := send - {SendIpcpResponse};
      } else if SendIp6cpRequest in send {
        if !ip6cp.state.Closed? && !ip6cp.state.Opened? {
          frames := [Ip6cp(Spec.Ip6cpRequest(Snapshot(), Bump(ip6cp.id)))];
          ip6cp := ip6cp.(id := Bump(ip6cp.id));
        }
        send := send - {SendIp6cpRequest};
        ip6cp := ip6cp.(retries := Bump(ip6cp.retries));
      } else if SendIp6cpResponse in send {
        frames := [Ip6cp(Spec.Ip6cpResponse(Snapshot()))];
        send := send - {SendIp6cpResponse};
      } else if SendRs in send {
        frames := [RouterSolicitation];
        send := send - {SendRs};
      } else {
        send := {};
      }
    }
  }
}
