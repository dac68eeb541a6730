/**
 The client and the A10NSP responder joined by two lossless FIFO channels. In
 every interleaving of transmissions, answers and deliveries the two sides come
 to rest after a bounded number of actions with the session established.
 */
module Convergence {
  import opened Types
  import opened ClientSpec
  import opened A10nsp
  import Options

  // One session, as the responder knows it.
  datatype Peer = Peer(sessionId: nat, address: nat, mac: Mac)

  datatype World = World(c: Session, up: seq<Packet>, down: seq<Packet>, naks: nat)

  datatype Action =
    | Send                          // the client transmits one packet
    | Answer(cookie: seq<Byte>)     // the responder takes one packet and replies
    | Deliver                       // the client takes one packet

  predicate Can(w: World, a: Action) {
    match a
    case Send => w.c.send != {}
    case Answer(_) => w.up != []
    case Deliver => w.down != []
  }

  predicate IsNak(p: Packet) {
    p.Ipcp? && p.ipcp.code == CONF_NAK
  }

  function Naks(ps: seq<Packet>): nat {
    if ps == [] then 0 else (if IsNak(ps[0]) then 1 else 0) + Naks(ps[1..])
  }

  // A frame that cannot be decoded is dropped.
  ghost function Do(cfg: Config, peer: Peer, w: World, a: Action): World
    requires Can(w, a)
  {
    match a
    case Send => w.(c := Transmit(w.c), up := w.up + Frame(cfg, w.c))
    case Answer(cookie) =>
      var replies := Replies(peer.sessionId, peer.address, cookie, peer.mac, w.up[0]);
      w.(up := w.up[1..], down := w.down + replies, naks := w.naks + Naks(replies))
    case Deliver =>
      w.(c := if Decoded(w.down[0]) then Receive(cfg, w.c, w.down[0]) else w.c, down := w.down[1..])
  }

  ghost predicate Legal(cfg: Config, peer: Peer, w: World, actions: seq<Action>)
    decreases |actions|
  {
    actions == [] || (Can(w, actions[0]) && Legal(cfg, peer, Do(cfg, peer, w, actions[0]), actions[1..]))
  }

  ghost function Play(cfg: Config, peer: Peer, w: World, actions: seq<Action>): World
    requires Legal(cfg, peer, w, actions)
    decreases |actions|
  {
    if actions == [] then w else Play(cfg, peer, Do(cfg, peer, w, actions[0]), actions[1..])
  }

  predicate Quiescent(w: World) {
    w.c.send == {} && w.up == [] && w.down == []
  }

  // ---- Potential: an upper bound on the number of actions still to come

  function UpWeight(peer: Peer, p: Packet): nat {
    match p
    case Discovery(d) => if d.code == PADI then 36 else 33
    case Lcp(l) => if l.code == CONF_REQUEST then 30 else 1
    case Pap(_, _, _) => 24
    case Ipcp(i) => if i.code != CONF_REQUEST then 1 else if OrZero(i.address) == peer.address then 5 else 11
    case Ip6cp(i) => if i.code == CONF_REQUEST then 9 else 1
    case Chap(_, _, _, _) => 1
    case RouterSolicitation => 1
  }

  function DownWeight(p: Packet): nat {
    match p
    case Discovery(d) => if d.code == PADO then 35 else 32
    case Lcp(l) => if l.code == CONF_REQUEST then 28 else 1
    case Pap(_, _, _) => 23
    case Ipcp(i) => if i.code == CONF_NAK then 7 else if i.code == CONF_REQUEST then 3 else 1
    case Ip6cp(i) => if i.code == CONF_REQUEST then 5 else 3
    case Chap(_, _, _, _) => 1
    case RouterSolicitation => 1
  }

  function UpSum(peer: Peer, ps: seq<Packet>): nat {
    if ps == [] then 0 else UpWeight(peer, ps[0]) + UpSum(peer, ps[1..])
  }

  function DownSum(ps: seq<Packet>): nat {
    if ps == [] then 0 else DownWeight(ps[0]) + DownSum(ps[1..])
  }

  // `init`: discovery has not been answered yet; `here`: the client asks for its allocated address.
  function BitWeight(bit: SendBit, init: bool, here: bool): nat {
    match bit
    case SendDiscovery => if init then 37 else 34
    case SendLcpRequest => 31
    case SendLcpResponse => 2
    case SendPap => 25
    case SendChap => 2
    case SendIpcpRequest => if here then 6 else 12
    case SendIpcpResponse => 2
    case SendIp6cpRequest => 10
    case SendIp6cpResponse => 2
    case SendRs => 2
  }

  function Pending(send: set<SendBit>, bit: SendBit, init: bool, here: bool): nat {
    if bit in send then BitWeight(bit, init, here) else 0
  }

  function Load(send: set<SendBit>, init: bool, here: bool): nat {
    Pending(send, SendDiscovery, init, here) + Pending(send, SendLcpRequest, init, here)
    + Pending(send, SendLcpResponse, init, here) + Pending(send, SendPap, init, here)
    + Pending(send, SendChap, init, here) + Pending(send, SendIpcpRequest, init, here)
    + Pending(send, SendIpcpResponse, init, here) + Pending(send, SendIp6cpRequest, init, here)
    + Pending(send, SendIp6cpResponse, init, here) + Pending(send, SendRs, init, here)
  }

  function SendSum(peer: Peer, c: Session): nat {
    Load(c.send, c.state.PppoeInit?, c.ip.address == peer.address)
  }

  lemma LoadWithout(send: set<SendBit>, bit: SendBit, init: bool, here: bool)
    requires bit in send
    ensures Load(send - {bit}, init, here) + BitWeight(bit, init, here) == Load(send, init, here)
  {
    hide BitWeight;
  }

  lemma LoadWith(send: set<SendBit>, bit: SendBit, init: bool, here: bool)
    ensures Load(send + {bit}, init, here) <= Load(send, init, here) + BitWeight(bit, init, here)
  {
    if bit in send {
      assert send + {bit} == send;
    } else {
      assert send + {bit} - {bit} == send;
      LoadWithout(send + {bit}, bit, init, here);
    }
  }

  function Potential(peer: Peer, w: World): nat {
    SendSum(peer, w.c) + UpSum(peer, w.up) + DownSum(w.down)
  }

  lemma {:induction false} UpSumAppend(peer: Peer, a: seq<Packet>, b: seq<Packet>)
    ensures UpSum(peer, a + b) == UpSum(peer, a) + UpSum(peer, b)
  {
    hide UpWeight;
    if a == [] {
      assert a + b == b;
    } else {
      UpSumAppend(peer, a[1..], b);
      assert (a + b)[1..] == a[1..] + b;
    }
  }

  lemma {:induction false} DownSumAppend(a: seq<Packet>, b: seq<Packet>)
    ensures DownSum(a + b) == DownSum(a) + DownSum(b)
  {
    hide DownWeight;
    if a == [] {
      assert a + b == b;
    } else {
      DownSumAppend(a[1..], b);
      assert (a + b)[1..] == a[1..] + b;
    }
  }

  // ---- Packets that occur

  function HostUniqTag(cfg: Config): Option<nat> {
    if cfg.hostUniq == 0 then None else Some(cfg.hostUniq)
  }

  predicate UpOk(cfg: Config, p: Packet) {
    match p
    case Discovery(d) => (d.code == PADI || d.code == PADR) && d.hostUniq == HostUniqTag(cfg)
    case Lcp(l) => l.code == CONF_REQUEST || l.code == CONF_ACK
    case Pap(_, _, _) => true
    case Ipcp(i) => i.code == CONF_REQUEST || i.code == CONF_ACK
    case Ip6cp(i) => i.code == CONF_REQUEST || i.code == CONF_ACK
    case Chap(_, _, _, _) => false
    case RouterSolicitation => true
  }

  // Every packet the responder takes weighs more than its replies together.
  lemma AnswerShrinks(cfg: Config, peer: Peer, cookie: seq<Byte>, p: Packet)
    requires UpOk(cfg, p)
    ensures DownSum(Replies(peer.sessionId, peer.address, cookie, peer.mac, p)) < UpWeight(peer, p)
  {
    var rs := Replies(peer.sessionId, peer.address, cookie, peer.mac, p);
    hide LcpOptionBytes, AddressOption, DownSum;
    SumOfTwo(rs);
  }

  lemma NoNaks(cfg: Config, peer: Peer, cookie: seq<Byte>, p: Packet)
    requires !p.Ipcp?
    ensures Naks(Replies(peer.sessionId, peer.address, cookie, peer.mac, p)) == 0
  {
    hide LcpOptionBytes, AddressOption, Naks;
    SumOfTwo(Replies(peer.sessionId, peer.address, cookie, peer.mac, p));
  }

  lemma SumOfTwo(ps: seq<Packet>)
    requires |ps| <= 2
    ensures DownSum(ps) == (if |ps| > 0 then DownWeight(ps[0]) else 0) + (if |ps| > 1 then DownWeight(ps[1]) else 0)
    ensures Naks(ps) == (if |ps| > 0 && IsNak(ps[0]) then 1 else 0) + (if |ps| > 1 && IsNak(ps[1]) then 1 else 0)
  {
    hide DownWeight, IsNak;
    if |ps| > 1 {
      assert ps[1..][0] == ps[1] && ps[1..][1..] == [];
    }
  }

  // ---- Before the network phase the exchange is strictly sequential

  // NCPs wait for the network phase; one that is not enabled is disabled.
  predicate NcpsWait(cfg: Config, c: Session) {
    && (c.ipcp.state.Disabled? || (c.ipcp.state.Closed? && cfg.ipcpEnable))
    && (c.ip6cp.state.Disabled? || (c.ip6cp.state.Closed? && cfg.ip6cpEnable))
  }

  predicate IsDiscovery(cfg: Config, p: Packet, code: Byte) {
    p.Discovery? && p.d.code == code && p.d.hostUniq == HostUniqTag(cfg)
  }

  predicate IsAnswer(cfg: Config, p: Packet, code: Byte) {
    IsDiscovery(cfg, p, code) && p.d.service == SERVICE_NAME && (code == PADS ==> p.d.sessionId != 0)
  }

  predicate Idle3(w: World, send: set<SendBit>) {
    w.c.send == send && w.up == [] && w.down == []
  }

  // One request of the client is on its way around.
  predicate Circulating(cfg: Config, w: World, request: Byte, answer: Byte) {
    || Idle3(w, {SendDiscovery})
    || (w.c.send == {} && |w.up| == 1 && w.down == [] && IsDiscovery(cfg, w.up[0], request))
    || (w.c.send == {} && w.up == [] && |w.down| == 1 && IsAnswer(cfg, w.down[0], answer))
  }

  predicate InitInv(cfg: Config, w: World) {
    && w.naks == 0 && w.c.state.PppoeInit? && NcpsWait(cfg, w.c)
    && (w.c.pppoe.service == [] || w.c.pppoe.service == SERVICE_NAME)
    && Circulating(cfg, w, PADI, PADO)
  }

  predicate RequestInv(cfg: Config, w: World) {
    && w.naks == 0 && w.c.state.PppoeRequest? && NcpsWait(cfg, w.c)
    && w.c.pppoe.service == SERVICE_NAME
    && Circulating(cfg, w, PADR, PADS)
  }

  predicate IsLcp(p: Packet, code: Byte) {
    p.Lcp? && p.lcp.code == code
  }

  predicate PapWanted(p: Packet) {
    IsLcp(p, CONF_REQUEST) && p.lcp.auth == PROTOCOL_PAP && !p.lcp.unknownOptions && Decoded(p)
  }

  predicate LinkInv(cfg: Config, w: World) {
    && w.naks == 0 && w.c.state.PppLink? && NcpsWait(cfg, w.c)
    && (match w.c.lcp.state
        case Init =>
          || (Idle3(w, {SendLcpRequest}) && w.c.lcp.requestCode == CONF_REQUEST)
          || (w.c.send == {} && |w.up| == 1 && w.down == [] && IsLcp(w.up[0], CONF_REQUEST))
          || (w.c.send == {} && w.up == [] && |w.down| == 2 && IsLcp(w.down[0], CONF_ACK) && PapWanted(w.down[1]))
        case LocalAck => w.c.send == {} && w.up == [] && |w.down| == 1 && PapWanted(w.down[0])
        case _ => false)
  }

  predicate IsPap(p: Packet, code: Byte) {
    p.Pap? && p.papCode == code
  }

  predicate AuthInv(cfg: Config, w: World) {
    && w.naks == 0 && w.c.state.PppAuth? && NcpsWait(cfg, w.c) && w.c.lcp.state.Opened?
    && (|| (Idle3(w, {SendLcpResponse, SendPap}) && w.c.lcp.responseCode == CONF_ACK)
        || (w.c.send == {SendPap} && w.down == [] && (w.up == [] || (|w.up| == 1 && IsLcp(w.up[0], CONF_ACK))))
        || (w.c.send == {} && w.down == [] && |w.up| == 2 && IsLcp(w.up[0], CONF_ACK) && w.up[1].Pap?)
        || (w.c.send == {} && w.down == [] && |w.up| == 1 && w.up[0].Pap?)
        || (w.c.send == {} && w.up == [] && |w.down| == 1 && IsPap(w.down[0], PAP_ACK)))
  }

  // The configurations that agree with what the responder offers.
  predicate Compatible(cfg: Config, peer: Peer, service: seq<Byte>) {
    && (service == [] || service == SERVICE_NAME)
    && peer.sessionId % 65536 != 0
    && (cfg.authentication == 0 || cfg.authentication == PROTOCOL_PAP)
    && (cfg.ipcpEnable ==> cfg.ipcpGlobal)
    && (cfg.ip6cpEnable ==> cfg.ip6cpGlobal)
    && (cfg.ipcpEnable || cfg.ip6cpEnable)
  }

  // ---- Effect of single client steps

  lemma SendsDiscovery(cfg: Config, c: Session)
    requires c.send == {SendDiscovery} && (c.state.PppoeInit? || c.state.PppoeRequest?)
    ensures var d := Transmit(c);
      && d.send == {} && d.state == c.state && d.pppoe.service == c.pppoe.service && d.ipcp == c.ipcp && d.ip6cp == c.ip6cp
      && |Frame(cfg, c)| == 1
      && IsDiscovery(cfg, Frame(cfg, c)[0], if c.state.PppoeInit? then PADI else PADR)
  {
  }

  lemma GetsPado(cfg: Config, c: Session, p: Packet)
    requires c.state.PppoeInit? && (c.pppoe.service == [] || c.pppoe.service == SERVICE_NAME) && IsAnswer(cfg, p, PADO)
    ensures var d := Receive(cfg, c, p);
      && d.state.PppoeRequest? && d.send == {SendDiscovery} && d.pppoe.service == SERVICE_NAME
      && d.ipcp == c.ipcp && d.ip6cp == c.ip6cp
  {
    hide RxLcp, RxIpcp, RxIp6cp, RxPap, RxChap, RxPads;
  }

  lemma GetsPads(cfg: Config, c: Session, p: Packet)
    requires c.state.PppoeRequest? && c.pppoe.service == SERVICE_NAME && IsAnswer(cfg, p, PADS)
    ensures var d := Receive(cfg, c, p);
      && d.state.PppLink? && d.send == {SendLcpRequest} && d.lcp.state.Init? && d.lcp.requestCode == CONF_REQUEST
      && d.ipcp == c.ipcp && d.ip6cp == c.ip6cp
  {
    hide RxLcp, RxIpcp, RxIp6cp, RxPap, RxChap, RxPado;
  }

  // ---- Potential drops, action by action

  lemma AnswerDrops(cfg: Config, peer: Peer, w: World, cookie: seq<Byte>)
    requires w.up != [] && UpOk(cfg, w.up[0])
    ensures Potential(peer, Do(cfg, peer, w, Answer(cookie))) < Potential(peer, w)
  {
    hide Replies, UpWeight, SendSum, Naks;
    var replies := Replies(peer.sessionId, peer.address, cookie, peer.mac, w.up[0]);
    AnswerShrinks(cfg, peer, cookie, w.up[0]);
    DownSumAppend(w.down, replies);
  }

  lemma SendDrops(cfg: Config, peer: Peer, w: World)
    requires w.c.send != {} && SendSum(peer, Transmit(w.c)) + UpSum(peer, Frame(cfg, w.c)) < SendSum(peer, w.c)
    ensures Potential(peer, Do(cfg, peer, w, Send)) < Potential(peer, w)
  {
    hide Transmit, Frame, SendSum;
    UpSumAppend(peer, w.up, Frame(cfg, w.c));
  }

  lemma DeliverDrops(cfg: Config, peer: Peer, w: World)
    requires w.down != [] && Decoded(w.down[0])
    requires SendSum(peer, Receive(cfg, w.c, w.down[0])) < SendSum(peer, w.c) + DownWeight(w.down[0])
    ensures Potential(peer, Do(cfg, peer, w, Deliver)) < Potential(peer, w)
  {
    hide Receive, Decoded, SendSum, DownWeight;
  }

  lemma UpSumOne(peer: Peer, p: Packet)
    ensures UpSum(peer, [p]) == UpWeight(peer, p)
  {
    hide UpWeight;
    assert [p][1..] == [];
  }

  // ---- Steps of the sequential phases

  lemma InitStep(cfg: Config, peer: Peer, w: World, a: Action)
    requires InitInv(cfg, w) && Can(w, a)
    ensures var v := Do(cfg, peer, w, a);
      (InitInv(cfg, v) || RequestInv(cfg, v)) && Potential(peer, v) < Potential(peer, w)
  {
    hide Transmit, Frame, Receive, LcpOptionBytes, AddressOption, Potential, UpSum, Naks;
    match a
    case Send =>
      SendsDiscovery(cfg, w.c);
      UpSumOne(peer, Frame(cfg, w.c)[0]);
      assert Frame(cfg, w.c) == [Frame(cfg, w.c)[0]];
      SendDrops(cfg, peer, w);
    case Answer(cookie) =>
      AnswerDrops(cfg, peer, w, cookie);
      NoNaks(cfg, peer, cookie, w.up[0]);
    case Deliver =>
      GetsPado(cfg, w.c, w.down[0]);
      DeliverDrops(cfg, peer, w);
  }

  lemma RequestStep(cfg: Config, peer: Peer, w: World, a: Action)
    requires RequestInv(cfg, w) && Can(w, a) && peer.sessionId % 65536 != 0
    ensures var v := Do(cfg, peer, w, a);
      (RequestInv(cfg, v) || LinkInv(cfg, v)) && Potential(peer, v) < Potential(peer, w)
  {
    hide Transmit, Frame, Receive, LcpOptionBytes, AddressOption, Potential, UpSum, Naks;
    match a
    case Send =>
      SendsDiscovery(cfg, w.c);
      UpSumOne(peer, Frame(cfg, w.c)[0]);
      assert Frame(cfg, w.c) == [Frame(cfg, w.c)[0]];
      SendDrops(cfg, peer, w);
    case Answer(cookie) =>
      AnswerDrops(cfg, peer, w, cookie);
      NoNaks(cfg, peer, cookie, w.up[0]);
    case Deliver =>
      GetsPads(cfg, w.c, w.down[0]);
      DeliverDrops(cfg, peer, w);
  }

  lemma SendsLcpRequest(cfg: Config, c: Session)
    requires c.send == {SendLcpRequest} && c.lcp.requestCode == CONF_REQUEST
    ensures var d := Transmit(c);
      && d.send == {} && d.state == c.state && d.lcp.state == c.lcp.state && d.ipcp == c.ipcp && d.ip6cp == c.ip6cp
      && |Frame(cfg, c)| == 1 && IsLcp(Frame(cfg, c)[0], CONF_REQUEST)
  {
    hide LcpOptionBytes;
  }

  lemma GetsLcpAck(cfg: Config, c: Session, p: Packet)
    requires c.state.PppLink? && c.lcp.state.Init? && IsLcp(p, CONF_ACK)
    ensures Decoded(p)
    ensures var d := Receive(cfg, c, p);
      && d.state.PppLink? && d.lcp.state.LocalAck? && d.send == c.send && d.ipcp == c.ipcp && d.ip6cp == c.ip6cp
  {
    hide RxIpcp, RxIp6cp, RxPap, RxChap, RxDiscovery, RxLcpConfRequest, AbandonLink, RxLcpTermRequest, LcpOpened;
  }

  lemma AcceptsPapRequest(cfg: Config, c: Session, p: LcpPacket)
    requires c.state.PppLink? && c.lcp.state.LocalAck? && PapWanted(Lcp(p))
    requires cfg.authentication == 0 || cfg.authentication == PROTOCOL_PAP
    ensures var d := RxLcpConfRequest(cfg, c, p);
      && d.state.PppAuth? && d.lcp.state.Opened? && d.send == c.send + {SendPap, SendLcpResponse}
      && d.lcp.responseCode == CONF_ACK && d.ipcp == c.ipcp && d.ip6cp == c.ip6cp
  {
    hide EnterNetwork, Options.LcpReject, Options.WellFormed, SuggestedAuth, KeptOptions;
  }

  lemma GetsLcpRequest(cfg: Config, c: Session, p: Packet)
    requires c.state.PppLink? && c.lcp.state.LocalAck? && PapWanted(p)
    requires cfg.authentication == 0 || cfg.authentication == PROTOCOL_PAP
    ensures var d := Receive(cfg, c, p);
      && d.state.PppAuth? && d.lcp.state.Opened? && d.send == c.send + {SendPap, SendLcpResponse}
      && d.lcp.responseCode == CONF_ACK && d.ipcp == c.ipcp && d.ip6cp == c.ip6cp
  {
    hide RxIpcp, RxIp6cp, RxPap, RxChap, RxDiscovery, RxLcpConfRequest, Options.WellFormed;
    AcceptsPapRequest(cfg, c, p.lcp);
  }

  // The responder's own Configure-Request is well formed and asks for PAP.
  lemma LcpAnswer(p: LcpPacket)
    requires p.code == CONF_REQUEST
    ensures |ReplyLcp(p)| == 2 && IsLcp(ReplyLcp(p)[0], CONF_ACK) && PapWanted(ReplyLcp(p)[1])
  {
    LcpOptionsWellFormed((p.magic + 1) % WORD);
    hide Options.WellFormed, LcpOptionBytes;
  }

  lemma LcpOptionsWellFormed(magic: nat)
    ensures Options.WellFormed(LcpOptionBytes(DEFAULT_MRU, PROTOCOL_PAP, magic))
  {
    var b := LcpOptionBytes(DEFAULT_MRU, PROTOCOL_PAP, magic);
    var c := if magic == 0 then [] else [5, 6] + Bytes32(magic);
    assert Options.WellFormed([]);
    if magic != 0 {
      assert c[6..] == [];
    }
    assert b[4..] == [3, 4] + Net16(PROTOCOL_PAP) + c;
    assert ([3, 4] + Net16(PROTOCOL_PAP) + c)[4..] == c;
  }

  lemma LinkStep(cfg: Config, peer: Peer, w: World, a: Action)
    requires LinkInv(cfg, w) && Can(w, a)
    requires cfg.authentication == 0 || cfg.authentication == PROTOCOL_PAP
    ensures var v := Do(cfg, peer, w, a);
      (LinkInv(cfg, v) || AuthInv(cfg, v)) && Potential(peer, v) < Potential(peer, w)
  {
    hide Transmit, Frame, Receive, ReplyLcp, LcpOptionBytes, AddressOption, Potential, UpSum, Decoded, Naks;
    match a
    case Send =>
      SendsLcpRequest(cfg, w.c);
      UpSumOne(peer, Frame(cfg, w.c)[0]);
      assert Frame(cfg, w.c) == [Frame(cfg, w.c)[0]];
      SendDrops(cfg, peer, w);
    case Answer(cookie) =>
      AnswerDrops(cfg, peer, w, cookie);
      NoNaks(cfg, peer, cookie, w.up[0]);
      LcpAnswer(w.up[0].lcp);
    case Deliver =>
      if w.c.lcp.state.Init? {
        GetsLcpAck(cfg, w.c, w.down[0]);
      } else {
        GetsLcpRequest(cfg, w.c, w.down[0]);
      }
      DeliverDrops(cfg, peer, w);
  }

  lemma SendsLcpResponse(cfg: Config, c: Session)
    requires c.send == {SendLcpResponse, SendPap} && c.lcp.responseCode == CONF_ACK
    ensures var d := Transmit(c);
      && d.send == {SendPap} && d.state == c.state && d.lcp == c.lcp && d.ipcp == c.ipcp && d.ip6cp == c.ip6cp
      && |Frame(cfg, c)| == 1 && IsLcp(Frame(cfg, c)[0], CONF_ACK)
  {
    hide LcpOptionBytes;
  }

  lemma SendsPap(cfg: Config, c: Session)
    requires c.send == {SendPap}
    ensures var d := Transmit(c);
      && d.send == {} && d.state == c.state && d.lcp == c.lcp && d.ipcp == c.ipcp && d.ip6cp == c.ip6cp
      && |Frame(cfg, c)| == 1 && Frame(cfg, c)[0].Pap?
  {
  }

  // Bits set on entry into the network phase.
  function NcpRequests(cfg: Config): set<SendBit> {
    (if cfg.ipcpEnable then {SendIpcpRequest} else {}) + (if cfg.ip6cpEnable then {SendIp6cpRequest} else {})
  }

  lemma GetsPapAck(cfg: Config, c: Session, p: Packet)
    requires c.state.PppAuth? && NcpsWait(cfg, c) && IsPap(p, PAP_ACK) && c.send == {}
    ensures var d := Receive(cfg, c, p);
      && d.state.PppNetwork? && d.lcp == c.lcp && d.send == NcpRequests(cfg) && d.ip.address == c.ip.address
      && d.ipcp.state == (if cfg.ipcpEnable then Init else Disabled)
      && d.ip6cp.state == (if cfg.ip6cpEnable then Init else Disabled)
      && (cfg.ipcpEnable ==> d.ipcp.requestCode == CONF_REQUEST)
      && (cfg.ip6cpEnable ==> d.ip6cp.requestCode == CONF_REQUEST)
  {
    hide RxIpcp, RxIp6cp, RxLcp, RxChap, RxDiscovery, TerminateLink;
  }

  // The network phase with its two requests pending.
  predicate NetworkStart(cfg: Config, w: World) {
    && w.naks == 0 && w.c.state.PppNetwork? && w.c.lcp.state.Opened? && Idle3(w, NcpRequests(cfg))
    && w.c.ipcp.state == (if cfg.ipcpEnable then Init else Disabled)
    && w.c.ip6cp.state == (if cfg.ip6cpEnable then Init else Disabled)
    && (cfg.ipcpEnable ==> w.c.ipcp.requestCode == CONF_REQUEST)
    && (cfg.ip6cpEnable ==> w.c.ip6cp.requestCode == CONF_REQUEST)
  }

  lemma AuthSend(cfg: Config, peer: Peer, w: World)
    requires AuthInv(cfg, w) && Can(w, Send)
    ensures var v := Do(cfg, peer, w, Send); AuthInv(cfg, v) && Potential(peer, v) < Potential(peer, w)
  {
    hide Transmit, Frame, Receive, OwnLcpRequest, LcpOptionBytes, AddressOption, Potential, UpSum, Naks;
    if SendLcpResponse in w.c.send {
      SendsLcpResponse(cfg, w.c);
    } else {
      SendsPap(cfg, w.c);
    }
    UpSumOne(peer, Frame(cfg, w.c)[0]);
    assert Frame(cfg, w.c) == [Frame(cfg, w.c)[0]];
    SendDrops(cfg, peer, w);
  }

  lemma AuthAnswer(cfg: Config, peer: Peer, w: World, a: Action)
    requires AuthInv(cfg, w) && Can(w, a) && a.Answer?
    ensures var v := Do(cfg, peer, w, a); AuthInv(cfg, v) && Potential(peer, v) < Potential(peer, w)
  {
    hide Transmit, Frame, Receive, OwnLcpRequest, LcpOptionBytes, AddressOption, Potential, UpSum, Naks;
    AnswerDrops(cfg, peer, w, a.cookie);
    NoNaks(cfg, peer, a.cookie, w.up[0]);
  }

  lemma AuthStep(cfg: Config, peer: Peer, w: World, a: Action)
    requires AuthInv(cfg, w) && Can(w, a)
    ensures var v := Do(cfg, peer, w, a);
      (AuthInv(cfg, v) || NetworkStart(cfg, v)) && Potential(peer, v) < Potential(peer, w)
  {
    hide Transmit, Frame, Receive, OwnLcpRequest, LcpOptionBytes, AddressOption, Potential, UpSum, Naks;
    match a
    case Send =>
      AuthSend(cfg, peer, w);
    case Answer(_) =>
      AuthAnswer(cfg, peer, w, a);
    case Deliver =>
      GetsPapAck(cfg, w.c, w.down[0]);
      DeliverDrops(cfg, peer, w);
  }
}
