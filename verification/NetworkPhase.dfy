/**
 The concurrent part of the exchange: IPCP and IP6CP run at the same time over
 the shared channels. Each NCP has one token, the client's request, which is
 always in exactly one place: pending, on its way, being answered, or accepted.
 */
module NetworkPhase {
  import opened Types
  import opened ClientSpec
  import opened A10nsp
  import opened Convergence
  import Options

  datatype Kind = Request4 | Ack4 | Nak4 | Request6 | Ack6

  predicate Is(p: Packet, k: Kind) {
    match k
    case Request4 => p.Ipcp? && p.ipcp.code == CONF_REQUEST
    case Ack4 => p.Ipcp? && p.ipcp.code == CONF_ACK
    case Nak4 => p.Ipcp? && p.ipcp.code == CONF_NAK
    case Request6 => p.Ip6cp? && p.ip6cp.code == CONF_REQUEST
    case Ack6 => p.Ip6cp? && p.ip6cp.code == CONF_ACK
  }

  function One(p: Packet, k: Kind): nat {
    if Is(p, k) then 1 else 0
  }

  function Count(ps: seq<Packet>, k: Kind): nat {
    if ps == [] then 0 else One(ps[0], k) + Count(ps[1..], k)
  }

  lemma {:induction false} CountAppend(a: seq<Packet>, b: seq<Packet>, k: Kind)
    ensures Count(a + b, k) == Count(a, k) + Count(b, k)
  {
    hide One;
    if a == [] {
      assert a + b == b;
    } else {
      CountAppend(a[1..], b, k);
      assert (a + b)[1..] == a[1..] + b;
    }
  }

  lemma CountOne(p: Packet, k: Kind)
    ensures Count([p], k) == One(p, k)
  {
    hide One;
    assert [p][1..] == [];
  }

  lemma {:induction false} CountZero(ps: seq<Packet>, k: Kind)
    requires Count(ps, k) == 0
    ensures forall p <- ps :: !Is(p, k)
  {
    if ps != [] {
      CountZero(ps[1..], k);
      assert ps == [ps[0]] + ps[1..];
    }
  }

  // ---- One NCP

  // Where the client's request is, and what is heard of the peer's.
  datatype Side = Side(pending: bool, sent: nat, answers: nat, peerRequests: nat, state: PppState)

  predicate Accepted(p: PppState) {
    p.LocalAck? || p.Opened?
  }

  predicate Negotiated(p: PppState) {
    p.Init? || p.LocalAck? || p.PeerAck? || p.Opened?
  }

  function Token(x: Side): nat {
    (if x.pending then 1 else 0) + x.sent + x.answers + (if Accepted(x.state) then 1 else 0)
  }

  predicate SideInv(x: Side) {
    && Negotiated(x.state)
    && Token(x) == 1
    && (x.state.PeerAck? || x.state.Opened? || x.peerRequests > 0 || x.pending || x.sent > 0)
  }

  // At rest the NCP is open.
  lemma SideRest(x: Side)
    requires SideInv(x) && !x.pending && x.sent == 0 && x.answers == 0 && x.peerRequests == 0
    ensures x.state.Opened?
  {
  }

  function Side4(w: World): Side {
    Side(SendIpcpRequest in w.c.send, Count(w.up, Request4), Count(w.down, Ack4) + Count(w.down, Nak4),
         Count(w.down, Request4), w.c.ipcp.state)
  }

  function Side6(w: World): Side {
    Side(SendIp6cpRequest in w.c.send, Count(w.up, Request6), Count(w.down, Ack6),
         Count(w.down, Request6), w.c.ip6cp.state)
  }

  // ---- The invariant of the phase

  predicate UpNet(cfg: Config, address: nat, p: Packet) {
    match p
    case Ipcp(i) =>
      cfg.ipcpEnable && (i.code == CONF_ACK || (i.code == CONF_REQUEST && OrZero(i.address) == address))
    case Ip6cp(i) => cfg.ip6cpEnable && (i.code == CONF_ACK || i.code == CONF_REQUEST)
    case RouterSolicitation => true
    case _ => false
  }

  predicate DownNet(cfg: Config, peer: Peer, p: Packet) {
    match p
    case Ipcp(i) =>
      && cfg.ipcpEnable
      && (|| i.code == CONF_ACK
          || (i.code == CONF_NAK && i.address == Some(peer.address))
          || (i.code == CONF_REQUEST && AcceptsIpcp(i) && Decoded(p)))
    case Ip6cp(i) => cfg.ip6cpEnable && (i.code == CONF_ACK || i.code == CONF_REQUEST)
    case _ => false
  }

  const NET_BITS := {SendIpcpRequest, SendIpcpResponse, SendIp6cpRequest, SendIp6cpResponse, SendRs}

  predicate ClientNet(cfg: Config, c: Session) {
    && c.lcp.state.Opened?
    && c.send <= NET_BITS
    && (if cfg.ipcpEnable then c.ipcp.requestCode == CONF_REQUEST
        else c.ipcp.state.Disabled? && SendIpcpRequest !in c.send && SendIpcpResponse !in c.send)
    && (if cfg.ip6cpEnable then c.ip6cp.requestCode == CONF_REQUEST
        else c.ip6cp.state.Disabled? && SendIp6cpRequest !in c.send && SendIp6cpResponse !in c.send)
    && (SendIpcpResponse in c.send ==> c.ipcp.responseCode == CONF_ACK)
    && (SendIp6cpResponse in c.send ==> c.ip6cp.responseCode == CONF_ACK)
    && c.state == if NcpSuccess(c.ipcp.state) && NcpSuccess(c.ip6cp.state) then Established else PppNetwork
  }

  ghost predicate Channels(cfg: Config, peer: Peer, w: World) {
    && (forall p <- w.up :: UpNet(cfg, w.c.ip.address, p))
    && (forall p <- w.down :: DownNet(cfg, peer, p))
  }

  // An acknowledged address is the allocated one, and at most one Nak is needed.
  predicate AddressInv(peer: Peer, w: World) {
    && (Count(w.down, Ack4) > 0 || Accepted(w.c.ipcp.state) ==> w.c.ip.address == peer.address)
    && (w.naks == 0 ==> Count(w.down, Nak4) == 0)
    && (w.naks == 1 ==> w.c.ip.address == peer.address || Count(w.down, Nak4) > 0)
    && w.naks <= 1
  }

  ghost predicate NetInv(cfg: Config, peer: Peer, w: World) {
    && ClientNet(cfg, w.c)
    && Channels(cfg, peer, w)
    && AddressInv(peer, w)
    && (cfg.ipcpEnable ==> SideInv(Side4(w)))
    && (cfg.ip6cpEnable ==> SideInv(Side6(w)))
  }

  lemma NetBegins(cfg: Config, peer: Peer, w: World)
    requires NetworkStart(cfg, w) && (cfg.ipcpEnable || cfg.ip6cpEnable)
    ensures NetInv(cfg, peer, w)
  {
  }

  // ---- The responder answers

  lemma CountTwo(ps: seq<Packet>, k: Kind)
    requires |ps| <= 2
    ensures Count(ps, k) == (if |ps| > 0 then One(ps[0], k) else 0) + (if |ps| > 1 then One(ps[1], k) else 0)
  {
    hide One;
    if |ps| > 1 {
      assert ps[1..][0] == ps[1] && ps[1..][1..] == [];
    }
  }

  lemma CountsOfTwo(ps: seq<Packet>)
    requires |ps| <= 2
    ensures forall k :: Count(ps, k) == (if |ps| > 0 then One(ps[0], k) else 0) + (if |ps| > 1 then One(ps[1], k) else 0)
  {
    forall k ensures Count(ps, k) == (if |ps| > 0 then One(ps[0], k) else 0) + (if |ps| > 1 then One(ps[1], k) else 0) {
      CountTwo(ps, k);
    }
  }

  lemma OwnIpcpRequestOk()
    ensures AcceptsIpcp(OwnIpcpRequest()) && Decoded(Ipcp(OwnIpcpRequest()))
  {
    var b := AddressOption(3, Some(MOCK_IP_LOCAL));
    assert b[6..] == [];
    assert Options.WellFormed(b[6..]);
  }

  lemma AnswerKinds(cfg: Config, peer: Peer, cookie: seq<Byte>, address: nat, p: Packet)
    requires UpNet(cfg, address, p)
    ensures var rs := Replies(peer.sessionId, peer.address, cookie, peer.mac, p);
      && (forall r <- rs :: DownNet(cfg, peer, r))
      && Count(rs, Request4) == One(p, Request4)
      && Count(rs, Ack4) == (if Is(p, Request4) && address == peer.address then 1 else 0)
      && Count(rs, Nak4) == (if Is(p, Request4) && address != peer.address then 1 else 0)
      && Naks(rs) == Count(rs, Nak4)
      && Count(rs, Request6) == One(p, Request6)
      && Count(rs, Ack6) == One(p, Request6)
  {
    hide OwnIpcpRequest, AddressOption, LcpOptionBytes, Count, Naks, OwnLcpRequest, Decoded;
    var rs := Replies(peer.sessionId, peer.address, cookie, peer.mac, p);
    OwnIpcpRequestOk();
    OwnIpcpRequestCode();
    CountsOfTwo(rs);
    SumOfTwo(rs);
  }

  lemma OwnIpcpRequestCode()
    ensures OwnIpcpRequest().code == CONF_REQUEST
  {
  }

  // The request moves from the channel to the responder's answer.
  lemma SideAnswered(x: Side, n: nat)
    requires SideInv(x) && n <= x.sent
    ensures SideInv(x.(sent := x.sent - n, answers := x.answers + n, peerRequests := x.peerRequests + n))
  {
  }

  lemma DoAnswer(cfg: Config, peer: Peer, w: World, cookie: seq<Byte>)
    requires w.up != []
    ensures var rs := Replies(peer.sessionId, peer.address, cookie, peer.mac, w.up[0]);
      Do(cfg, peer, w, Answer(cookie)) == World(w.c, w.up[1..], w.down + rs, w.naks + Naks(rs))
  {
    hide Replies, Naks;
  }

  lemma AnswerChannels(cfg: Config, peer: Peer, w: World, rs: seq<Packet>)
    requires Channels(cfg, peer, w) && w.up != [] && forall r <- rs :: DownNet(cfg, peer, r)
    ensures Channels(cfg, peer, w.(up := w.up[1..], down := w.down + rs))
  {
    hide UpNet, DownNet;
  }

  lemma AnswerSides(cfg: Config, w: World, v: World, p: Packet, rs: seq<Packet>)
    requires w.up != [] && p == w.up[0] && v.c == w.c && v.up == w.up[1..] && v.down == w.down + rs
    requires Count(rs, Request4) == One(p, Request4) == Count(rs, Ack4) + Count(rs, Nak4)
    requires Count(rs, Request6) == One(p, Request6) == Count(rs, Ack6)
    ensures SideInv(Side4(w)) ==> SideInv(Side4(v))
    ensures SideInv(Side6(w)) ==> SideInv(Side6(v))
  {
    hide One, SideInv;
    CountAppend(w.down, rs, Ack4);
    CountAppend(w.down, rs, Nak4);
    CountAppend(w.down, rs, Request4);
    CountAppend(w.down, rs, Ack6);
    CountAppend(w.down, rs, Request6);
    if SideInv(Side4(w)) {
      SideAnswered(Side4(w), One(p, Request4));
    }
    if SideInv(Side6(w)) {
      SideAnswered(Side6(w), One(p, Request6));
    }
  }

  lemma AnswerNet(cfg: Config, peer: Peer, w: World, cookie: seq<Byte>)
    requires NetInv(cfg, peer, w) && w.up != []
    ensures NetInv(cfg, peer, Do(cfg, peer, w, Answer(cookie)))
  {
    hide Replies, UpNet, DownNet, Do, ClientNet, Naks, SideInv, Is, Count, Side4, Side6, AddressInv;
    var p := w.up[0];
    var v := Do(cfg, peer, w, Answer(cookie));
    var rs := Replies(peer.sessionId, peer.address, cookie, peer.mac, p);
    DoAnswer(cfg, peer, w, cookie);
    assert UpNet(cfg, w.c.ip.address, p);
    AnswerKinds(cfg, peer, cookie, w.c.ip.address, p);
    AnswerSides(cfg, w, v, p, rs);
    CountAppend(w.down, rs, Ack4);
    CountAppend(w.down, rs, Nak4);
    UpNetEnabled(cfg, w.c.ip.address, p);
    AnswerAddress(cfg, peer, w, v, p);
    AnswerChannels(cfg, peer, w, rs);
    assert Channels(cfg, peer, v);
  }

  lemma UpNetEnabled(cfg: Config, address: nat, p: Packet)
    requires UpNet(cfg, address, p)
    ensures Is(p, Request4) ==> cfg.ipcpEnable
    ensures UpOk(cfg, p)
  {
  }

  // A Nak is sent only while the client still asks for another address.
  lemma AnswerAddress(cfg: Config, peer: Peer, w: World, v: World, p: Packet)
    requires AddressInv(peer, w) && (cfg.ipcpEnable ==> SideInv(Side4(w))) && w.up != [] && p == w.up[0]
    requires Is(p, Request4) ==> cfg.ipcpEnable
    requires v.c == w.c
    requires Count(v.down, Ack4) == Count(w.down, Ack4) + (if Is(p, Request4) && w.c.ip.address == peer.address then 1 else 0)
    requires Count(v.down, Nak4) == Count(w.down, Nak4) + (if Is(p, Request4) && w.c.ip.address != peer.address then 1 else 0)
    requires v.naks == w.naks + (if Is(p, Request4) && w.c.ip.address != peer.address then 1 else 0)
    ensures AddressInv(peer, v)
  {
  }

  // ---- The client transmits

  // The frame for the served bit, given that a pending request may be sent.
  lemma SendFrame(cfg: Config, c: Session)
    requires ClientNet(cfg, c) && c.send != {}
    requires SendIpcpRequest in c.send ==> MayRequest(c.ipcp)
    requires SendIp6cpRequest in c.send ==> MayRequest(c.ip6cp)
    ensures Served(c).Some? && Served(c).value in NET_BITS && Served(c).value in c.send
    ensures |Frame(cfg, c)| == 1
    ensures var f := Frame(cfg, c)[0];
      && UpNet(cfg, c.ip.address, f)
      && (Is(f, Request4) <==> Served(c) == Some(SendIpcpRequest))
      && (Is(f, Request6) <==> Served(c) == Some(SendIp6cpRequest))
  {
    hide AddressOption;
  }

  lemma SendClient(cfg: Config, c: Session)
    requires ClientNet(cfg, c) && Served(c).Some? && Served(c).value in NET_BITS
    ensures var d := Transmit(c);
      && ClientNet(cfg, d)
      && d.send == c.send - {Served(c).value} && d.state == c.state && d.ip.address == c.ip.address
      && d.ipcp.state == c.ipcp.state && d.ip6cp.state == c.ip6cp.state
  {
    hide Served, UpdateState, NcpSuccess;
  }

  lemma SendWeight(cfg: Config, peer: Peer, c: Session, bit: SendBit, f: Packet, d: Session)
    requires bit in NET_BITS && bit in c.send && UpNet(cfg, c.ip.address, f)
    requires Is(f, Request4) <==> bit == SendIpcpRequest
    requires Is(f, Request6) <==> bit == SendIp6cpRequest
    requires d.send == c.send - {bit} && d.state == c.state && d.ip.address == c.ip.address
    ensures SendSum(peer, d) + UpWeight(peer, f) < SendSum(peer, c)
  {
    hide Load;
    LoadWithout(c.send, bit, c.state.PppoeInit?, c.ip.address == peer.address);
  }

  lemma DoSend(cfg: Config, peer: Peer, w: World)
    requires w.c.send != {}
    ensures Do(cfg, peer, w, Send) == World(Transmit(w.c), w.up + Frame(cfg, w.c), w.down, w.naks)
  {
    hide Transmit, Frame, Receive, Replies;
  }

  lemma PendingMayRequest(cfg: Config, peer: Peer, w: World)
    requires NetInv(cfg, peer, w)
    ensures SendIpcpRequest in w.c.send ==> MayRequest(w.c.ipcp)
    ensures SendIp6cpRequest in w.c.send ==> MayRequest(w.c.ip6cp)
  {
    hide UpNet, DownNet, Count, AddressInv;
  }

  // The request moves from the send mask to the channel.
  lemma SideSent(x: Side, n: nat)
    requires SideInv(x) && n <= 1 && (n == 1 ==> x.pending)
    ensures SideInv(x.(pending := x.pending && n == 0, sent := x.sent + n))
  {
  }

  lemma SendSides(w: World, v: World, f: Packet, bit: SendBit)
    requires bit in w.c.send && v.c.send == w.c.send - {bit} && v.up == w.up + [f] && v.down == w.down
    requires v.c.ipcp.state == w.c.ipcp.state && v.c.ip6cp.state == w.c.ip6cp.state
    requires Is(f, Request4) <==> bit == SendIpcpRequest
    requires Is(f, Request6) <==> bit == SendIp6cpRequest
    ensures SideInv(Side4(w)) ==> SideInv(Side4(v))
    ensures SideInv(Side6(w)) ==> SideInv(Side6(v))
  {
    hide SideInv, Count, Is;
    CountAppend(w.up, [f], Request4);
    CountAppend(w.up, [f], Request6);
    CountOne(f, Request4);
    CountOne(f, Request6);
    if SideInv(Side4(w)) {
      SideSent(Side4(w), One(f, Request4));
    }
    if SideInv(Side6(w)) {
      SideSent(Side6(w), One(f, Request6));
    }
  }

  lemma SendChannels(cfg: Config, peer: Peer, w: World, d: Session, f: Packet)
    requires Channels(cfg, peer, w) && UpNet(cfg, w.c.ip.address, f) && d.ip.address == w.c.ip.address
    ensures Channels(cfg, peer, w.(c := d, up := w.up + [f]))
  {
    hide UpNet, DownNet;
  }

  lemma SendNet(cfg: Config, peer: Peer, w: World)
    requires NetInv(cfg, peer, w) && w.c.send != {}
    ensures NetInv(cfg, peer, Do(cfg, peer, w, Send))
    ensures Potential(peer, Do(cfg, peer, w, Send)) < Potential(peer, w)
  {
    PendingMayRequest(cfg, peer, w);
    hide UpNet, DownNet, Do, ClientNet, Is, Count, Transmit, Frame, Served, Potential, SendSum, UpWeight, UpSum,
         SideInv, Side4, Side6, Channels;
    var c, f := w.c, Frame(cfg, w.c);
    SendFrame(cfg, c);
    SendClient(cfg, c);
    SendWeight(cfg, peer, c, Served(c).value, f[0], Transmit(c));
    assert f == [f[0]];
    UpSumOne(peer, f[0]);
    SendDrops(cfg, peer, w);
    DoSend(cfg, peer, w);
    SendChannels(cfg, peer, w, Transmit(c), f[0]);
    SendSides(w, Do(cfg, peer, w, Send), f[0], Served(c).value);
  }

  // ---- The client receives

  lemma SettingIpcp(cfg: Config, c: Session, next: PppState)
    requires ClientNet(cfg, c) && cfg.ipcpEnable && (next == OnConfAck(c.ipcp.state) || next == OnConfRequest(c.ipcp.state))
    ensures var d := SetIpcp(c, next);
      ClientNet(cfg, d) && d.ipcp == c.ipcp.(state := next) && d.ip6cp == c.ip6cp && d.lcp == c.lcp
      && d.send == c.send && d.ip.address == c.ip.address
  {
  }

  lemma SettingIp6cp(cfg: Config, c: Session, next: PppState)
    requires ClientNet(cfg, c) && cfg.ip6cpEnable && (next == OnConfAck(c.ip6cp.state) || next == OnConfRequest(c.ip6cp.state))
    ensures var d := SetIp6cp(c, next);
      ClientNet(cfg, d) && d.ip6cp == c.ip6cp.(state := next) && d.ipcp == c.ipcp && d.lcp == c.lcp
      && c.send <= d.send <= c.send + {SendRs} && d.ip.address == c.ip.address
  {
  }

  lemma GetsAck4(cfg: Config, c: Session, p: IpcpPacket)
    requires ClientNet(cfg, c) && cfg.ipcpEnable && cfg.ipcpGlobal && p.code == CONF_ACK
    ensures var d := RxIpcp(cfg, c, p);
      ClientNet(cfg, d) && d.ipcp.state == OnConfAck(c.ipcp.state) && d.ip6cp.state == c.ip6cp.state
      && d.send == c.send && d.ip.address == c.ip.address
  {
    hide SetIpcp, OnConfAck, OnConfRequest, IpcpRespond, IpcpRequestAgain, RejectProtocol, Options.IpcpReject, NcpSuccess;
    SettingIpcp(cfg, c.(ipcp := c.ipcp.(retries := 0)), OnConfAck(c.ipcp.state));
  }

  lemma GetsNak4(cfg: Config, c: Session, p: IpcpPacket)
    requires ClientNet(cfg, c) && cfg.ipcpEnable && cfg.ipcpGlobal && p.code == CONF_NAK
    requires p.address.Some? && p.address.value != 0
    ensures var d := RxIpcp(cfg, c, p);
      ClientNet(cfg, d) && d.ipcp.state == c.ipcp.state && d.ip6cp.state == c.ip6cp.state
      && d.send == c.send + {SendIpcpRequest} && d.ip.address == p.address.value
  {
    hide SetIpcp, OnConfAck, OnConfRequest, IpcpRespond, RejectProtocol, Options.IpcpReject, NcpSuccess;
  }

  lemma GetsRequest4(cfg: Config, c: Session, p: IpcpPacket)
    requires ClientNet(cfg, c) && cfg.ipcpEnable && cfg.ipcpGlobal && p.code == CONF_REQUEST && AcceptsIpcp(p) && Decoded(Ipcp(p))
    ensures var d := RxIpcp(cfg, c, p);
      ClientNet(cfg, d) && d.ipcp.state == OnConfRequest(c.ipcp.state) && d.ip6cp.state == c.ip6cp.state
      && d.send == c.send + {SendIpcpResponse} && d.ip.address == c.ip.address
  {
    hide SetIpcp, OnConfAck, OnConfRequest, IpcpRequestAgain, RejectProtocol, Options.IpcpReject, NcpSuccess, KeptOptions;
    var t := c.(ip := HeardPeer(c.ip, p));
    SettingIpcp(cfg, t, OnConfRequest(c.ipcp.state));
  }

  lemma GetsAck6(cfg: Config, c: Session, p: Ip6cpPacket)
    requires ClientNet(cfg, c) && cfg.ip6cpEnable && cfg.ip6cpGlobal && p.code == CONF_ACK
    ensures var d := RxIp6cp(cfg, c, p);
      ClientNet(cfg, d) && d.ip6cp.state == OnConfAck(c.ip6cp.state) && d.ipcp.state == c.ipcp.state
      && c.send <= d.send <= c.send + {SendRs} && d.ip.address == c.ip.address
  {
    hide SetIp6cp, OnConfAck, OnConfRequest, Ip6cpRespond, RejectProtocol, NcpSuccess;
    SettingIp6cp(cfg, c.(ip6cp := c.ip6cp.(retries := 0)), OnConfAck(c.ip6cp.state));
  }

  lemma GetsRequest6(cfg: Config, c: Session, p: Ip6cpPacket)
    requires ClientNet(cfg, c) && cfg.ip6cpEnable && cfg.ip6cpGlobal && p.code == CONF_REQUEST
    ensures var d := RxIp6cp(cfg, c, p);
      ClientNet(cfg, d) && d.ip6cp.state == OnConfRequest(c.ip6cp.state) && d.ipcp.state == c.ipcp.state
      && c.send + {SendIp6cpResponse} <= d.send <= c.send + {SendIp6cpResponse, SendRs} && d.ip.address == c.ip.address
  {
    hide SetIp6cp, OnConfAck, OnConfRequest, RejectProtocol, NcpSuccess, KeptOptions;
    var t := c.(ip6 := HeardPeer6(c.ip6, p));
    SettingIp6cp(cfg, t, OnConfRequest(c.ip6cp.state));
  }

  // What one delivered packet does to the client.
  predicate Effect(peer: Peer, c: Session, p: Packet, d: Session) {
    && d.ipcp.state == (if Is(p, Ack4) then OnConfAck(c.ipcp.state)
                        else if Is(p, Request4) then OnConfRequest(c.ipcp.state) else c.ipcp.state)
    && d.ip6cp.state == (if Is(p, Ack6) then OnConfAck(c.ip6cp.state)
                         else if Is(p, Request6) then OnConfRequest(c.ip6cp.state) else c.ip6cp.state)
    && d.ip.address == (if Is(p, Nak4) then peer.address else c.ip.address)
    && (SendIpcpRequest in d.send <==> SendIpcpRequest in c.send || Is(p, Nak4))
    && (SendIp6cpRequest in d.send <==> SendIp6cpRequest in c.send)
  }

  lemma Gets4(cfg: Config, peer: Peer, c: Session, p: Packet)
    requires ClientNet(cfg, c) && DownNet(cfg, peer, p) && p.Ipcp? && cfg.ipcpGlobal && peer.address != 0
    requires Is(p, Nak4) ==> SendIpcpRequest !in c.send
    ensures Decoded(p)
    ensures var d := RxIpcp(cfg, c, p.ipcp);
      ClientNet(cfg, d) && Effect(peer, c, p, d) && SendSum(peer, d) < SendSum(peer, c) + DownWeight(p)
  {
    hide ClientNet, RxIpcp, OnConfAck, OnConfRequest, Load, AcceptsIpcp, Options.WellFormed;
    if Is(p, Ack4) {
      GetsAck4(cfg, c, p.ipcp);
      SamePhase(cfg, c, RxIpcp(cfg, c, p.ipcp));
    } else if Is(p, Nak4) {
      GetsNak4(cfg, c, p.ipcp);
      SamePhase(cfg, c, RxIpcp(cfg, c, p.ipcp));
      LoadHere(c.send);
      LoadWith(c.send, SendIpcpRequest, false, true);
    } else {
      GetsRequest4(cfg, c, p.ipcp);
      SamePhase(cfg, c, RxIpcp(cfg, c, p.ipcp));
      LoadWith(c.send, SendIpcpResponse, false, c.ip.address == peer.address);
    }
  }

  lemma SamePhase(cfg: Config, c: Session, d: Session)
    requires ClientNet(cfg, c) && ClientNet(cfg, d)
    ensures !c.state.PppoeInit? && !d.state.PppoeInit?
  {
  }

  lemma LoadHere(send: set<SendBit>)
    requires SendIpcpRequest !in send
    ensures Load(send, false, true) == Load(send, false, false)
  {
    hide Pending;
    forall bit ensures Pending(send, bit, false, true) == Pending(send, bit, false, false) {
      PendingHere(send, bit);
    }
  }

  lemma PendingHere(send: set<SendBit>, bit: SendBit)
    requires SendIpcpRequest !in send
    ensures Pending(send, bit, false, true) == Pending(send, bit, false, false)
  {
  }

  lemma LoadUpTo(send: set<SendBit>, more: set<SendBit>, bits: set<SendBit>, here: bool)
    requires send <= more <= send + bits && bits <= {SendRs, SendIp6cpResponse}
    ensures Load(more, false, here) <= Load(send, false, here) + 2 * |bits|
  {
    hide Load;
    if more == send {
    } else if bits == {SendRs} || bits == {SendIp6cpResponse} {
      var b :| b in bits;
      assert bits == {b} && more == send + {b};
      LoadWith(send, b, false, here);
    } else {
      assert bits == {SendRs, SendIp6cpResponse};
      LoadWith(send, SendRs, false, here);
      LoadWith(send, SendIp6cpResponse, false, here);
      LoadWith(send + {SendRs}, SendIp6cpResponse, false, here);
      assert more == send + {SendRs} || more == send + {SendIp6cpResponse} || more == send + {SendRs} + {SendIp6cpResponse};
    }
  }

  lemma Gets6(cfg: Config, peer: Peer, c: Session, p: Packet)
    requires ClientNet(cfg, c) && DownNet(cfg, peer, p) && p.Ip6cp? && cfg.ip6cpGlobal
    ensures Decoded(p)
    ensures var d := RxIp6cp(cfg, c, p.ip6cp);
      ClientNet(cfg, d) && Effect(peer, c, p, d) && SendSum(peer, d) < SendSum(peer, c) + DownWeight(p)
  {
    hide ClientNet, RxIp6cp, OnConfAck, OnConfRequest, Load;
    var d := RxIp6cp(cfg, c, p.ip6cp);
    if Is(p, Ack6) {
      GetsAck6(cfg, c, p.ip6cp);
      LoadUpTo(c.send, d.send, {SendRs}, c.ip.address == peer.address);
    } else {
      GetsRequest6(cfg, c, p.ip6cp);
      LoadUpTo(c.send, d.send, {SendRs, SendIp6cpResponse}, c.ip.address == peer.address);
    }
    SamePhase(cfg, c, d);
  }

  lemma Gets(cfg: Config, peer: Peer, c: Session, p: Packet)
    requires ClientNet(cfg, c) && DownNet(cfg, peer, p) && peer.address != 0
    requires (cfg.ipcpEnable ==> cfg.ipcpGlobal) && (cfg.ip6cpEnable ==> cfg.ip6cpGlobal)
    requires Is(p, Nak4) ==> SendIpcpRequest !in c.send
    ensures Decoded(p)
    ensures var d := Receive(cfg, c, p);
      ClientNet(cfg, d) && Effect(peer, c, p, d) && SendSum(peer, d) < SendSum(peer, c) + DownWeight(p)
  {
    DownNetEnabled(cfg, peer, p);
    PhaseNet(cfg, c);
    hide ClientNet, RxIpcp, RxIp6cp, RxLcp, RxDiscovery, RxPap, RxChap, Effect, SendSum, DownNet, DownWeight, Decoded;
    if p.Ipcp? {
      Gets4(cfg, peer, c, p);
    } else {
      Gets6(cfg, peer, c, p);
    }
  }

  lemma DownNetEnabled(cfg: Config, peer: Peer, p: Packet)
    requires DownNet(cfg, peer, p)
    ensures (p.Ipcp? && cfg.ipcpEnable) || (p.Ip6cp? && cfg.ip6cpEnable)
  {
  }

  lemma PhaseNet(cfg: Config, c: Session)
    requires ClientNet(cfg, c)
    ensures c.state.PppNetwork? || c.state.Established?
  {
  }

  lemma SideAcked(x: Side)
    requires SideInv(x) && x.answers > 0
    ensures SideInv(x.(answers := x.answers - 1, state := OnConfAck(x.state)))
    ensures !x.pending && x.sent == 0
  {
  }

  lemma SideRefused(x: Side)
    requires SideInv(x) && x.answers > 0
    ensures SideInv(x.(answers := x.answers - 1, pending := true))
  {
  }

  lemma SideRequested(x: Side)
    requires SideInv(x) && x.peerRequests > 0
    ensures SideInv(x.(peerRequests := x.peerRequests - 1, state := OnConfRequest(x.state)))
  {
  }

  lemma DeliverSides(peer: Peer, w: World, v: World, p: Packet)
    requires w.down != [] && p == w.down[0] && v.up == w.up && v.down == w.down[1..] && Effect(peer, w.c, p, v.c)
    ensures SideInv(Side4(w)) ==> SideInv(Side4(v))
    ensures SideInv(Side6(w)) ==> SideInv(Side6(v))
  {
    hide SideInv, OnConfAck, OnConfRequest;
    if SideInv(Side4(w)) {
      if Is(p, Ack4) {
        SideAcked(Side4(w));
      } else if Is(p, Nak4) {
        SideRefused(Side4(w));
      } else if Is(p, Request4) {
        SideRequested(Side4(w));
      }
    }
    if SideInv(Side6(w)) {
      if Is(p, Ack6) {
        SideAcked(Side6(w));
      } else if Is(p, Request6) {
        SideRequested(Side6(w));
      }
    }
  }

  lemma DeliverAddress(cfg: Config, peer: Peer, w: World, v: World, p: Packet)
    requires AddressInv(peer, w) && SideInv(Side4(w)) && w.down != [] && p == w.down[0]
    requires v.up == w.up && v.down == w.down[1..] && v.naks == w.naks && Effect(peer, w.c, p, v.c)
    ensures AddressInv(peer, v)
  {
  }

  lemma DeliverChannels(cfg: Config, peer: Peer, w: World, d: Session)
    requires Channels(cfg, peer, w) && w.down != []
    requires d.ip.address == w.c.ip.address || Count(w.up, Request4) == 0
    ensures Channels(cfg, peer, w.(c := d, down := w.down[1..]))
  {
    hide DownNet;
    if d.ip.address != w.c.ip.address {
      CountZero(w.up, Request4);
    }
  }

  lemma DoDeliver(cfg: Config, peer: Peer, w: World)
    requires w.down != [] && Decoded(w.down[0])
    ensures Do(cfg, peer, w, Deliver) == World(Receive(cfg, w.c, w.down[0]), w.up, w.down[1..], w.naks)
  {
    hide Transmit, Frame, Receive, Replies, Decoded;
  }

  lemma NakToken(w: World)
    requires SideInv(Side4(w)) && w.down != [] && Is(w.down[0], Nak4)
    ensures SendIpcpRequest !in w.c.send && Count(w.up, Request4) == 0
  {
  }

  lemma DeliverNet(cfg: Config, peer: Peer, w: World)
    requires NetInv(cfg, peer, w) && w.down != [] && peer.address != 0
    requires (cfg.ipcpEnable ==> cfg.ipcpGlobal) && (cfg.ip6cpEnable ==> cfg.ip6cpGlobal)
    ensures NetInv(cfg, peer, Do(cfg, peer, w, Deliver))
    ensures Potential(peer, Do(cfg, peer, w, Deliver)) < Potential(peer, w)
  {
    var p := w.down[0];
    assert DownNet(cfg, peer, p);
    DownNetEnabled(cfg, peer, p);
    hide UpNet, DownNet, Do, ClientNet, Count, Receive, Potential, SendSum, DownWeight, Decoded, SideInv, Side4, Side6,
         Channels;
    if Is(p, Nak4) {
      NakToken(w);
    }
    Gets(cfg, peer, w.c, p);
    DeliverDrops(cfg, peer, w);
    DoDeliver(cfg, peer, w);
    var v := Do(cfg, peer, w, Deliver);
    DeliverSides(peer, w, v, p);
    DeliverChannels(cfg, peer, w, v.c);
    if cfg.ipcpEnable {
      DeliverAddress(cfg, peer, w, v, p);
    } else {
      NoIpcp(cfg, peer, w, v);
    }
  }

  // Without IPCP there is nothing to say about its address.
  lemma NoIpcp(cfg: Config, peer: Peer, w: World, v: World)
    requires AddressInv(peer, w) && !cfg.ipcpEnable && ClientNet(cfg, v.c) && w.down != [] && !w.down[0].Ipcp?
    requires v.down == w.down[1..] && v.naks == w.naks && v.c.ip.address == w.c.ip.address
    ensures AddressInv(peer, v)
  {
  }

  // ---- One action of the phase

  lemma NetStep(cfg: Config, peer: Peer, w: World, a: Action)
    requires NetInv(cfg, peer, w) && Can(w, a) && peer.address != 0
    requires (cfg.ipcpEnable ==> cfg.ipcpGlobal) && (cfg.ip6cpEnable ==> cfg.ip6cpGlobal)
    ensures NetInv(cfg, peer, Do(cfg, peer, w, a)) && Potential(peer, Do(cfg, peer, w, a)) < Potential(peer, w)
  {
    match a
    case Send =>
      hide Do, NetInv, Potential;
      SendNet(cfg, peer, w);
    case Deliver =>
      hide Do, NetInv, Potential;
      DeliverNet(cfg, peer, w);
    case Answer(cookie) =>
      assert UpNet(cfg, w.c.ip.address, w.up[0]);
      UpNetEnabled(cfg, w.c.ip.address, w.up[0]);
      hide Do, NetInv, Potential;
      AnswerNet(cfg, peer, w, cookie);
      AnswerDrops(cfg, peer, w, cookie);
  }

  // At rest the session is established with the allocated address.
  lemma NetRest(cfg: Config, peer: Peer, w: World)
    requires NetInv(cfg, peer, w) && Quiescent(w)
    ensures w.c.state.Established?
    ensures cfg.ipcpEnable ==> w.c.ipcp.state.Opened? && w.c.ip.address == peer.address
    ensures cfg.ip6cpEnable ==> w.c.ip6cp.state.Opened?
    ensures w.naks <= 1
  {
    if cfg.ipcpEnable {
      SideRest(Side4(w));
    }
    if cfg.ip6cpEnable {
      SideRest(Side6(w));
    }
  }
}
