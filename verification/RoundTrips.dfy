/**
 Requests of the client and what comes of the responder's replies, beyond the setup of a
 session: discovery, DNS, keepalive and termination.
 */
module RoundTrips {
  import opened Types
  import opened ClientSpec
  import opened Responses
  import opened Requests
  import opened Wire
  import opened A10nsp
  import opened Convergence
  import Options

  // ---- What the responder says

  // An answer has the identifier of what it answers, and an acknowledgement says the same
  // (section 5.2 of RFC 1661).
  predicate Answers(p: Packet, r: Packet) {
    match r
    case Pap(code, id, _) => p.Pap? && code == PAP_ACK && id == p.papId
    case Discovery(_) => p.Discovery?
    case Lcp(l) =>
      && p.Lcp? && (l.code in {CONF_ACK, TERM_ACK, ECHO_REPLY} ==> l.id == p.lcp.id)
      && (l.code == CONF_ACK ==> l == p.lcp.(code := CONF_ACK))
    case Ipcp(i) =>
      && p.Ipcp? && (i.code in {CONF_ACK, CONF_NAK, TERM_ACK} ==> i.id == p.ipcp.id)
      && (i.code == CONF_ACK ==> i == p.ipcp.(code := CONF_ACK))
    case Ip6cp(i) =>
      && p.Ip6cp? && (i.code in {CONF_ACK, TERM_ACK} ==> i.id == p.ip6cp.id)
      && (i.code == CONF_ACK ==> i == p.ip6cp.(code := CONF_ACK))
    case _ => false
  }

  lemma AnswersIdentify(peer: Peer, cookie: seq<Byte>, p: Packet)
    ensures forall r <- Replies(peer.sessionId, peer.address, cookie, peer.mac, p) :: Answers(p, r)
  {
    hide LcpOptionBytes, AddressOption, InterfaceOption;
  }

  // The options of its own requests say what their fields say.
  lemma OwnRequestsRead(magic: nat)
    requires magic < WORD
    ensures var p := OwnLcpRequest(magic);
      ReadsLcp(p.options, p.mru, p.auth, p.magic) && p.mru == 1492 && p.auth == PROTOCOL_PAP && p.magic == magic
    ensures var p := OwnIpcpRequest(); ReadsIpcp(p.options, p.address, None, None) && p.dns1 == None && p.dns2 == None
    ensures var p := OwnIp6cpRequest(); ReadsIp6cp(p.options, p.interfaceId) && p.interfaceId == 1
  {
    hide LcpOptionBytes, AddressOption, InterfaceOption, ReadsLcp, ReadsIpcp, ReadsIp6cp;
    LcpOptionsRead(DEFAULT_MRU, PROTOCOL_PAP, magic);
    IpcpOptionsRead(Some(MOCK_IP_LOCAL), None, None);
    NoOptions(AddressOption(3, Some(MOCK_IP_LOCAL)));
    Ip6cpOptionsRead(1);
  }

  lemma NoOptions(b: seq<Byte>)
    ensures b + AddressOption(129, None) + AddressOption(131, None) == b
  {
  }

  // A correction says which address and which servers to ask for, the latter only to a
  // client that asked for them.
  lemma NakReads(address: nat, p: IpcpPacket)
    requires address < WORD
    ensures var n := IpcpNak(address, p);
      && n.code == CONF_NAK && n.address == Some(address) && ReadsIpcp(n.options, n.address, n.dns1, n.dns2)
      && n.dns1 == (if p.dns1 == None then None else Some(MOCK_DNS1))
      && n.dns2 == (if p.dns2 == None then None else Some(MOCK_DNS2))
  {
    hide AddressOption, ReadsIpcp;
    IpcpOptionsRead(Some(address), if p.dns1.Some? then Some(MOCK_DNS1) else None, if p.dns2.Some? then Some(MOCK_DNS2) else None);
  }

  // A client that is corrected asks again for what it was told, and is acknowledged: it
  // then has the allocated address and the servers it wanted.
  lemma CorrectionIsAccepted(cfg: Config, s: Session, address: nat, id: Byte, again: Byte)
    requires 0 < address < WORD && s.ip.address != address && s.ipcp.requestCode == CONF_REQUEST
    requires Attentive(s) && s.lcp.state.Opened? && cfg.ipcpGlobal
    ensures var rs := ReplyIpcp(address, IpcpRequest(cfg, s, id));
      |rs| == 2 && rs[0].Ipcp? && rs[0].ipcp.code == CONF_NAK
      && var t := Receive(cfg, s, rs[0]);
      && t.ip.address == address
      && (s.ip.wantDns1 ==> t.ip.dns1 == MOCK_DNS1) && (s.ip.wantDns2 ==> t.ip.dns2 == MOCK_DNS2)
      && (!s.ip.wantDns1 ==> t.ip.dns1 == s.ip.dns1) && (!s.ip.wantDns2 ==> t.ip.dns2 == s.ip.dns2)
      && var q := IpcpRequest(cfg, t, again);
      && q.code == CONF_REQUEST && |ReplyIpcp(address, q)| == 2
      && ReplyIpcp(address, q)[0] == Ipcp(q.(code := CONF_ACK))
  {
    hide AddressOption, OwnIpcpRequest, Receive;
    var n := ReplyIpcp(address, IpcpRequest(cfg, s, id))[0];
    IpcpLearns(cfg, s, n.ipcp);
    GetIpcp(Step(cfg, s, Rx(n)));
    AskingStep(cfg, s, ForIpcp, Rx(n));
  }

  // ---- Discovery

  // The responder's PADO gets a client on that asks for its service or for any; the PADR
  // brings the cookie back, and the PADS settles the session id.
  lemma DiscoveryRoundTrip(cfg: Config, s: Session, peer: Peer, cookie: seq<Byte>)
    requires s.state.PppoeInit? && SendDiscovery in s.send && cookie != [] && peer.sessionId % 65536 != 0
    ensures |Frame(cfg, s)| == 1
    ensures var rs := Replies(peer.sessionId, peer.address, cookie, peer.mac, Frame(cfg, s)[0]);
      |rs| == 1
      && var t := Receive(cfg, Transmit(s), rs[0]);
      && (t.state.PppoeRequest? <==> s.pppoe.service == [] || s.pppoe.service == SERVICE_NAME)
      && t.pppoe.serverMac == peer.mac && t.pppoe.cookie == cookie
      && (t.state.PppoeRequest? ==>
            && |Frame(cfg, t)| == 1 && Frame(cfg, t)[0].Discovery?
            && Frame(cfg, t)[0].d.code == PADR && Frame(cfg, t)[0].d.cookie == cookie
            && var qs := Replies(peer.sessionId, peer.address, [], peer.mac, Frame(cfg, t)[0]);
            && |qs| == 1
            && var u := Receive(cfg, Transmit(t), qs[0]);
            && u.state.PppLink? && u.pppoe.sessionId == peer.sessionId % 65536 && u.send == {SendLcpRequest})
  {
    hide LcpRequest, LcpResponse, IpcpRequest, Ip6cpRequest, Ip6cpResponse, RxLcp, RxIpcp, RxIp6cp, RxPap, RxChap, CloseNcps;
  }

  // ---- Login

  // The client asks, and the responder's acknowledgement has its identifier and opens the
  // network phase.
  lemma LoginRoundTrip(cfg: Config, s: Session, peer: Peer)
    requires s.state.PppAuth? && Served(s) == Some(SendPap)
    ensures |Frame(cfg, s)| == 1 && Frame(cfg, s)[0].Pap? && Frame(cfg, s)[0].papCode == PAP_REQUEST
    ensures var rs := Replies(peer.sessionId, peer.address, [], peer.mac, Frame(cfg, s)[0]);
      |rs| == 1 && rs[0].Pap? && rs[0].papCode == PAP_ACK && rs[0].papId == Frame(cfg, s)[0].papId
      && var t := Receive(cfg, Transmit(s), rs[0]);
      && t.state.PppNetwork?
      && (cfg.ipcpEnable ==> SendIpcpRequest in t.send) && (cfg.ip6cpEnable ==> SendIp6cpRequest in t.send)
  {
    hide Served, RxLcp, RxIpcp, RxIp6cp, RxDiscovery, RxChap, CloseNcps, LcpRequest, IpcpRequest, Ip6cpRequest;
  }

  // ---- Keepalive

  // An Echo-Request of the client is answered, and the answer only tells that the peer is
  // alive.
  lemma EchoRoundTrip(cfg: Config, s: Session, id: Byte)
    requires s.state.Established? && s.lcp.requestCode == ECHO_REQUEST
    ensures var rs := ReplyLcp(LcpRequest(s, id));
      |rs| == 1 && Decoded(rs[0]) && Receive(cfg, s, rs[0]) == s.(lcp := s.lcp.(retries := 0))
  {
    hide LcpOptionBytes, RxLcpConfRequest, Options.WellFormed;
  }

  // ---- Termination

  // A Terminate-Request of the client is answered so that it gives up the link with a PADT.
  lemma TerminateRoundTrip(cfg: Config, s: Session, id: Byte)
    requires Rank(PppLink) <= Rank(s.state) <= Rank(PppTerminating) && s.lcp.requestCode == TERM_REQUEST
    ensures var rs := ReplyLcp(LcpRequest(s, id));
      |rs| == 1 && Decoded(rs[0])
      && var t := Receive(cfg, s, rs[0]);
      t.state.Terminating? && t.send == {SendDiscovery} && t.pppoe == s.pppoe
  {
    hide LcpOptionBytes, RxLcpConfRequest, Options.WellFormed;
  }

  // A cleared session, from the Terminate-Request to the PADT that names it.
  lemma ClearRoundTrip(cfg: Config, s: Session)
    requires s.state.PppAuth? || s.state.PppNetwork? || s.state.Established?
    requires SendDiscovery !in s.send
    ensures var t := Step(cfg, s, Clear);
      |Frame(cfg, t)| == 1 && Frame(cfg, t)[0].Lcp? && Frame(cfg, t)[0].lcp.code == TERM_REQUEST
      && var rs := ReplyLcp(Frame(cfg, t)[0].lcp);
      |rs| == 1 && Decoded(rs[0])
      && var u := Receive(cfg, Transmit(t), rs[0]);
      && |Frame(cfg, u)| == 1 && Frame(cfg, u)[0].Discovery?
      && Frame(cfg, u)[0].d.code == PADT && Frame(cfg, u)[0].d.sessionId == s.pppoe.sessionId
      && Transmit(u).state.Terminated?
  {
    hide LcpOptionBytes, RxLcpConfRequest, Options.WellFormed, LcpResponse, IpcpRequest, Ip6cpRequest, Ip6cpResponse;
    var t := Step(cfg, s, Clear);
    assert Served(t) == Some(SendLcpRequest) && t.lcp.requestCode == TERM_REQUEST;
    var t' := Transmit(t);
    assert t'.state.PppTerminating? && t'.lcp.requestCode == TERM_REQUEST && t'.pppoe == s.pppoe;
    TerminateRoundTrip(cfg, t', t'.lcp.id);
  }

  // A closed NCP: the responder confirms, and the client may open it again.
  lemma CloseIpcpRoundTrip(cfg: Config, s: Session, id: Byte)
    requires (s.state.PppNetwork? || s.state.Established?) && s.lcp.state.Opened? && cfg.ipcpGlobal && s.ipcp.state.Opened?
    ensures var t := Step(cfg, s, CloseIpcp);
      var rs := ReplyIpcp(0, IpcpRequest(cfg, t, id));
      |rs| == 1 && Decoded(rs[0])
      && var u := Receive(cfg, t, rs[0]);
      u.ipcp.state.Closed? && u.ipcp.retries == 0 && Step(cfg, u, OpenIpcp).ipcp.state.Init?
  {
    hide AddressOption, Options.WellFormed;
  }

  lemma CloseIp6cpRoundTrip(cfg: Config, s: Session, id: Byte)
    requires (s.state.PppNetwork? || s.state.Established?) && s.lcp.state.Opened? && cfg.ip6cpGlobal && s.ip6cp.state.Opened?
    ensures var t := Step(cfg, s, CloseIp6cp);
      var rs := ReplyIp6cp(Ip6cpRequest(t, id));
      |rs| == 1 && Decoded(rs[0])
      && var u := Receive(cfg, t, rs[0]);
      u.ip6cp.state.Closed? && u.ip6cp.retries == 0 && Step(cfg, u, OpenIp6cp).ip6cp.state.Init?
  {
    hide InterfaceOption, Options.WellFormed;
  }

  // ---- Runs of keepalives

  // Besides sending, answering and delivering, the keepalive timer fires.
  datatype Beat = Timer | Act(action: Action)

  ghost function Beaten(cfg: Config, peer: Peer, w: World, b: Beat): World {
    match b
    case Timer => w.(c := Step(cfg, w.c, LcpEcho))
    case Act(a) => if Can(w, a) then Do(cfg, peer, w, a) else w
  }

  ghost function Beats(cfg: Config, peer: Peer, w: World, bs: seq<Beat>): World {
    if bs == [] then w else Beaten(cfg, peer, Beats(cfg, peer, w, bs[..|bs| - 1]), bs[|bs| - 1])
  }

  predicate IsEcho(p: Packet, code: Byte) {
    p.Lcp? && p.lcp.code == code
  }

  // An established session and nothing on its way but echoes.
  ghost predicate Alive(w: World) {
    && w.c.state.Established? && w.c.send <= {SendLcpRequest}
    && (w.c.send != {} ==> w.c.lcp.requestCode == ECHO_REQUEST)
    && (forall p <- w.up :: IsEcho(p, ECHO_REQUEST)) && (forall p <- w.down :: IsEcho(p, ECHO_REPLY))
  }

  // The timer finds too many requests unanswered.
  predicate Expires(cfg: Config, w: World, b: Beat) {
    b.Timer? && w.c.lcp.retries > cfg.keepaliveRetry
  }

  lemma EchoSent(cfg: Config, c: Session)
    requires c.state.Established? && c.send == {SendLcpRequest} && c.lcp.requestCode == ECHO_REQUEST
    ensures Frame(cfg, c) == [Lcp(LcpPacket(ECHO_REQUEST, Bump(c.lcp.id), magic := c.link.magic))]
    ensures Transmit(c) == c.(send := {}, lcp := c.lcp.(id := Bump(c.lcp.id), retries := Bump(c.lcp.retries)))
  {
    assert Served(c) == Some(SendLcpRequest);
    assert c.send - {SendLcpRequest} == {};
  }

  lemma EchoHeard(cfg: Config, c: Session, p: Packet)
    requires c.state.Established? && IsEcho(p, ECHO_REPLY)
    ensures Decoded(p) && Receive(cfg, c, p) == c.(lcp := c.lcp.(retries := 0))
  {
    hide RxLcpConfRequest, Options.WellFormed;
  }

  lemma AliveNext(cfg: Config, peer: Peer, w: World, b: Beat)
    requires Alive(w)
    ensures Expires(cfg, w, b) ==> Beaten(cfg, peer, w, b).c.state.Terminating?
    ensures !Expires(cfg, w, b) ==> Alive(Beaten(cfg, peer, w, b))
  {
    match b
    case Timer =>
    case Act(Send) =>
      hide Transmit, Frame, Receive, Replies;
      if Can(w, Send) {
        EchoSent(cfg, w.c);
      }
    case Act(Answer(cookie)) =>
      hide Receive, LcpOptionBytes, AddressOption;
      if w.up != [] {
        assert IsEcho(w.up[0], ECHO_REQUEST);
      }
    case Act(Deliver) =>
      hide Receive, Replies, Decoded;
      if w.down != [] {
        assert IsEcho(w.down[0], ECHO_REPLY);
        EchoHeard(cfg, w.c, w.down[0]);
      }
  }

  ghost predicate ExpiresAt(cfg: Config, peer: Peer, w: World, bs: seq<Beat>, k: nat)
    requires k < |bs|
  {
    Expires(cfg, Beats(cfg, peer, w, bs[..k]), bs[k])
  }

  ghost predicate UpAt(cfg: Config, peer: Peer, w: World, bs: seq<Beat>, k: nat)
    requires k <= |bs|
  {
    Beats(cfg, peer, w, bs[..k]).c.state.Established?
  }

  lemma BeatsNext(cfg: Config, peer: Peer, w: World, bs: seq<Beat>, k: nat)
    requires k < |bs|
    ensures Beats(cfg, peer, w, bs[..k + 1]) == Beaten(cfg, peer, Beats(cfg, peer, w, bs[..k]), bs[k])
  {
    hide Beaten;
    assert bs[..k + 1][..k] == bs[..k];
  }

  // As long as the timer does not expire, or the session is up.
  lemma {:induction false} AliveUpTo(cfg: Config, peer: Peer, w: World, bs: seq<Beat>, k: nat)
    requires Alive(w) && k <= |bs|
    requires (forall j :: 0 <= j < k ==> !ExpiresAt(cfg, peer, w, bs, j)) || (forall j :: 0 <= j <= k ==> UpAt(cfg, peer, w, bs, j))
    ensures Alive(Beats(cfg, peer, w, bs[..k]))
  {
    hide Alive, Beaten, Expires;
    if k == 0 {
      assert bs[..0] == [];
    } else {
      AliveUpTo(cfg, peer, w, bs, k - 1);
      BeatsNext(cfg, peer, w, bs, k - 1);
      AliveNext(cfg, peer, Beats(cfg, peer, w, bs[..k - 1]), bs[k - 1]);
      assert !ExpiresAt(cfg, peer, w, bs, k - 1) || UpAt(cfg, peer, w, bs, k);
    }
  }

  // In every interleaving of the keepalive timer with sending, answering and delivering,
  // the session stays established throughout if and only if the timer never finds more
  // requests unanswered than configured.
  lemma KeepaliveIff(cfg: Config, peer: Peer, w: World, bs: seq<Beat>)
    requires Alive(w)
    ensures (forall k :: 0 <= k <= |bs| ==> UpAt(cfg, peer, w, bs, k))
       <==> (forall k :: 0 <= k < |bs| ==> !ExpiresAt(cfg, peer, w, bs, k))
  {
    hide Beaten, Beats, Expires;
    if forall k :: 0 <= k < |bs| ==> !ExpiresAt(cfg, peer, w, bs, k) {
      forall k | 0 <= k <= |bs| ensures UpAt(cfg, peer, w, bs, k) {
        AliveUpTo(cfg, peer, w, bs, k);
      }
    }
    if forall k :: 0 <= k <= |bs| ==> UpAt(cfg, peer, w, bs, k) {
      forall k | 0 <= k < |bs| ensures !ExpiresAt(cfg, peer, w, bs, k) {
        AliveUpTo(cfg, peer, w, bs, k);
        BeatsNext(cfg, peer, w, bs, k);
        AliveNext(cfg, peer, Beats(cfg, peer, w, bs[..k]), bs[k]);
        assert UpAt(cfg, peer, w, bs, k + 1);
      }
    }
  }

  // A keepalive that is answered before the next one.
  ghost function Round(cfg: Config, peer: Peer, w: World): World {
    Beaten(cfg, peer, Beaten(cfg, peer, Beaten(cfg, peer, Beaten(cfg, peer, w, Timer), Act(Send)), Act(Answer([]))), Act(Deliver))
  }

  ghost function AnsweredRounds(cfg: Config, peer: Peer, w: World, n: nat): World {
    if n == 0 then w else Round(cfg, peer, AnsweredRounds(cfg, peer, w, n - 1))
  }

  predicate AtRest(cfg: Config, w: World) {
    w.c.state.Established? && Quiescent(w) && w.c.lcp.retries <= cfg.keepaliveRetry
  }

  lemma RoundKeeps(cfg: Config, peer: Peer, w: World)
    requires AtRest(cfg, w)
    ensures Round(cfg, peer, w)
         == w.(c := w.c.(lcp := w.c.lcp.(requestCode := ECHO_REQUEST, options := [], retries := 0, id := Bump(Bump(w.c.lcp.id)))))
  {
    hide Receive, LcpOptionBytes, AddressOption, Frame, Transmit, Naks;
    var c1 := Step(cfg, w.c, LcpEcho);
    assert c1.send == {SendLcpRequest};
    EchoSent(cfg, c1);
    var q := Lcp(LcpPacket(ECHO_REQUEST, Bump(c1.lcp.id), magic := c1.link.magic));
    var r := Lcp(LcpPacket(ECHO_REPLY, Bump(c1.lcp.id), magic := c1.link.magic));
    assert [] + [q] == [q] && [q][1..] == [] && [] + [r] == [r] && [r][1..] == [];
    NoNaks(cfg, peer, [], q);
    EchoHeard(cfg, Transmit(c1), r);
  }

  // With any limit, keepalives that are answered in time keep the session as it is, for
  // any number of them; only identifiers are used up.
  lemma {:induction false} AnsweredForEver(cfg: Config, peer: Peer, w: World, n: nat)
    requires AtRest(cfg, w)
    ensures var v := AnsweredRounds(cfg, peer, w, n);
      && AtRest(cfg, v)
      && v.c == w.c.(lcp := v.c.lcp) && v.c.lcp.state == w.c.lcp.state
      && v.c.lcp.id == (w.c.lcp.id + 2 * n) % 256
  {
    hide Round;
    if n > 0 {
      AnsweredForEver(cfg, peer, w, n - 1);
      RoundKeeps(cfg, peer, AnsweredRounds(cfg, peer, w, n - 1));
    }
  }
}
