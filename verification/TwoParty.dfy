/**
 The two-party theorem: which configurations converge, how fast, and with what
 address; and that no other configuration is ever established.
 */
module TwoParty {
  import opened Types
  import opened ClientSpec
  import opened A10nsp
  import opened Convergence
  import opened NetworkPhase
  import Learned
  import Options

  // A session the scheduler has just started, with empty channels.
  predicate Begins(cfg: Config, w: World) {
    && w.c.state.PppoeInit? && w.c.lcp.state.Closed? && NcpsWait(cfg, w.c)
    && w.naks == 0 && w.c.send == {SendDiscovery} && w.up == [] && w.down == []
  }

  ghost predicate Inv(cfg: Config, peer: Peer, w: World) {
    InitInv(cfg, w) || RequestInv(cfg, w) || LinkInv(cfg, w) || AuthInv(cfg, w) || NetInv(cfg, peer, w)
  }

  const BOUND := 37

  lemma BeginsInv(cfg: Config, peer: Peer, w: World)
    requires Begins(cfg, w) && (w.c.pppoe.service == [] || w.c.pppoe.service == SERVICE_NAME)
    ensures InitInv(cfg, w) && Potential(peer, w) == BOUND
  {
  }

  lemma StepInv(cfg: Config, peer: Peer, w: World, a: Action, service: seq<Byte>)
    requires Inv(cfg, peer, w) && Can(w, a) && peer.address != 0 && Compatible(cfg, peer, service)
    ensures Inv(cfg, peer, Do(cfg, peer, w, a)) && Potential(peer, Do(cfg, peer, w, a)) < Potential(peer, w)
  {
    hide Do, InitInv, RequestInv, LinkInv, AuthInv, NetInv, NetworkStart, Potential;
    if InitInv(cfg, w) {
      InitStep(cfg, peer, w, a);
    } else if RequestInv(cfg, w) {
      RequestStep(cfg, peer, w, a);
    } else if LinkInv(cfg, w) {
      LinkStep(cfg, peer, w, a);
    } else if AuthInv(cfg, w) {
      AuthStep(cfg, peer, w, a);
      var v := Do(cfg, peer, w, a);
      if NetworkStart(cfg, v) {
        NetBegins(cfg, peer, v);
      }
    } else {
      NetStep(cfg, peer, w, a);
    }
  }

  lemma PlayInv(cfg: Config, peer: Peer, w: World, actions: seq<Action>, service: seq<Byte>)
    requires Inv(cfg, peer, w) && Legal(cfg, peer, w, actions) && peer.address != 0 && Compatible(cfg, peer, service)
    ensures var v := Play(cfg, peer, w, actions);
      Inv(cfg, peer, v) && Potential(peer, v) + |actions| <= Potential(peer, w)
    decreases |actions|
  {
    hide Do, Inv, Potential, Compatible;
    if actions != [] {
      StepInv(cfg, peer, w, actions[0], service);
      PlayInv(cfg, peer, Do(cfg, peer, w, actions[0]), actions[1..], service);
    }
  }

  // Only the network phase comes to rest.
  lemma Rest(cfg: Config, peer: Peer, w: World)
    requires Inv(cfg, peer, w) && Quiescent(w)
    ensures NetInv(cfg, peer, w)
  {
    hide NetInv;
  }

  lemma FewNaks(cfg: Config, peer: Peer, w: World)
    requires Inv(cfg, peer, w)
    ensures w.naks <= 1
  {
  }

  // ---- What the client knows in the end

  // The values that a play settles, besides the address.
  datatype Known = Known(sessionId: nat, dns1: nat, dns2: nat, asks1: bool, asks2: bool)

  function KnownBy(c: Session): Known {
    Known(c.pppoe.sessionId, c.ip.dns1, c.ip.dns2, c.ip.wantDns1, c.ip.wantDns2)
  }

  lemma LearnsFive(cfg: Config, c: Session, e: Event)
    requires e.Rx? ==> Decoded(e.packet)
    ensures Learned.Follows(cfg, c, e, Learned.SessionId, Step(cfg, c, e))
    ensures Learned.Follows(cfg, c, e, Learned.Dns1, Step(cfg, c, e)) && Learned.Follows(cfg, c, e, Learned.Dns2, Step(cfg, c, e))
    ensures Learned.Follows(cfg, c, e, Learned.AsksDns1, Step(cfg, c, e))
    ensures Learned.Follows(cfg, c, e, Learned.AsksDns2, Step(cfg, c, e))
  {
    hide Step, Learned.Follows, Decoded;
    Learned.LearnStep(cfg, c, e, Learned.SessionId);
    Learned.LearnStep(cfg, c, e, Learned.Dns1);
    Learned.LearnStep(cfg, c, e, Learned.Dns2);
    Learned.LearnStep(cfg, c, e, Learned.AsksDns1);
    Learned.LearnStep(cfg, c, e, Learned.AsksDns2);
  }

  lemma TransmitTells(cfg: Config, c: Session)
    ensures KnownBy(Transmit(c)) == KnownBy(c)
  {
    hide Transmit;
    LearnsFive(cfg, c, Tx);
  }

  // Which packets tell one of these values.
  lemma PacketTells(cfg: Config, c: Session, p: Packet)
    requires Decoded(p) && !c.state.Idle? && !c.state.Terminated?
    requires p.Discovery? ==> p.d.code == PADO || Learned.Tells(cfg, c, Rx(p), Learned.SessionId).Some?
    requires p.Ipcp? ==> p.ipcp.code != CONF_REJECT && c.lcp.state.Opened? && cfg.ipcpGlobal
    ensures var k, m := KnownBy(c), KnownBy(Receive(cfg, c, p));
      && m.asks1 == k.asks1 && m.asks2 == k.asks2
      && m.sessionId == (if p.Discovery? && p.d.code == PADS then p.d.sessionId else k.sessionId)
      && (if IsNak(p) then
            && (OrZero(p.ipcp.dns1) != 0 ==> m.dns1 == p.ipcp.dns1.value)
            && (OrZero(p.ipcp.dns2) != 0 ==> m.dns2 == p.ipcp.dns2.value)
          else m.dns1 == k.dns1 && m.dns2 == k.dns2)
  {
    hide Receive, Decoded;
    LearnsFive(cfg, c, Rx(p));
  }

  predicate HasSession(s: SessionState) {
    s.PppLink? || s.PppAuth? || s.PppNetwork? || s.Established?
  }

  // Packets on their way say what the client asks for and what the responder has.
  predicate AsksFor(a1: bool, a2: bool, p: Packet) {
    p.Ipcp? && p.ipcp.code == CONF_REQUEST ==> p.ipcp.dns1.Some? == a1 && p.ipcp.dns2.Some? == a2
  }

  predicate Offers(peer: Peer, a1: bool, a2: bool, p: Packet) {
    && (p.Discovery? && p.d.code == PADS ==> p.d.sessionId == peer.sessionId % 65536)
    && (IsNak(p) ==> p.ipcp.dns1 == (if a1 then Some(MOCK_DNS1) else None)
                     && p.ipcp.dns2 == (if a2 then Some(MOCK_DNS2) else None))
  }

  predicate Corrected(k: Known) {
    (k.asks1 ==> k.dns1 == MOCK_DNS1) && (k.asks2 ==> k.dns2 == MOCK_DNS2)
  }

  // Once in the link phase the client has the session id, and once corrected the servers
  // it asks for, or the correction is on its way.
  ghost predicate ValueInv(peer: Peer, w: World, a1: bool, a2: bool) {
    var k := KnownBy(w.c);
    && k.asks1 == a1 && k.asks2 == a2
    && (forall p <- w.up :: AsksFor(a1, a2, p)) && (forall p <- w.down :: Offers(peer, a1, a2, p))
    && (HasSession(w.c.state) ==> k.sessionId == peer.sessionId % 65536)
    && (w.naks > 0 ==> Corrected(k) || exists p <- w.down :: IsNak(p))
  }

  lemma FrameAsks(cfg: Config, c: Session)
    requires Served(c) == Some(SendIpcpRequest) || !exists p <- Frame(cfg, c) :: p.Ipcp? && p.ipcp.code == CONF_REQUEST
    ensures forall p <- Frame(cfg, c) :: AsksFor(c.ip.wantDns1, c.ip.wantDns2, p)
  {
    hide AddressOption, LcpOptionBytes, InterfaceOption, Served;
  }

  lemma EarlyFrame(cfg: Config, c: Session)
    requires c.send <= {SendDiscovery, SendLcpRequest, SendLcpResponse, SendPap}
    ensures forall p <- Frame(cfg, c) :: !p.Ipcp?
  {
    hide AddressOption, LcpOptionBytes, InterfaceOption;
  }

  lemma SendAsks(cfg: Config, peer: Peer, w: World)
    requires Inv(cfg, peer, w) && w.c.send != {}
    ensures forall p <- Frame(cfg, w.c) :: AsksFor(w.c.ip.wantDns1, w.c.ip.wantDns2, p)
  {
    if NetInv(cfg, peer, w) {
      PendingMayRequest(cfg, peer, w);
      SendFrame(cfg, w.c);
    } else {
      EarlyFrame(cfg, w.c);
    }
    hide Frame, Served, Inv, NetInv;
    FrameAsks(cfg, w.c);
  }

  lemma RepliesOffer(peer: Peer, a1: bool, a2: bool, cookie: seq<Byte>, p: Packet)
    requires AsksFor(a1, a2, p)
    ensures var rs := Replies(peer.sessionId, peer.address, cookie, peer.mac, p);
      && (forall r <- rs :: Offers(peer, a1, a2, r))
      && (Naks(rs) > 0 ==> exists r <- rs :: IsNak(r))
  {
    hide AddressOption, LcpOptionBytes, InterfaceOption, Naks;
    var rs := Replies(peer.sessionId, peer.address, cookie, peer.mac, p);
    SumOfTwo(rs);
    if Naks(rs) > 0 {
      assert IsNak(rs[0]);
    }
  }

  lemma AnswerValues(cfg: Config, peer: Peer, w: World, cookie: seq<Byte>, a1: bool, a2: bool)
    requires ValueInv(peer, w, a1, a2) && w.up != []
    ensures ValueInv(peer, Do(cfg, peer, w, Answer(cookie)), a1, a2)
  {
    hide Transmit, Frame, Receive, Replies, AsksFor, Offers, IsNak, Corrected, Naks, Do;
    assert AsksFor(a1, a2, w.up[0]);
    DoAnswer(cfg, peer, w, cookie);
    RepliesOffer(peer, a1, a2, cookie, w.up[0]);
    var rs := Replies(peer.sessionId, peer.address, cookie, peer.mac, w.up[0]);
    var v := Do(cfg, peer, w, Answer(cookie));
    if v.naks > 0 && !Corrected(KnownBy(v.c)) {
      if w.naks > 0 {
        var p :| p in w.down && IsNak(p);
        assert p in v.down;
      } else {
        var r :| r in rs && IsNak(r);
        assert r in v.down;
      }
    }
  }

  // What the packet that is delivered next may be.
  lemma NextDelivery(cfg: Config, peer: Peer, w: World, service: seq<Byte>)
    requires Inv(cfg, peer, w) && w.down != [] && Compatible(cfg, peer, service)
    ensures var p := w.down[0];
      && Decoded(p) && !w.c.state.Idle? && !w.c.state.Terminated?
      && (p.Discovery? ==> p.d.code == PADO || Learned.Tells(cfg, w.c, Rx(p), Learned.SessionId).Some?)
      && (p.Ipcp? ==> p.ipcp.code != CONF_REJECT && w.c.lcp.state.Opened? && cfg.ipcpGlobal)
      && (!HasSession(w.c.state) ==> p.Discovery?)
      && (p.Discovery? ==> if p.d.code == PADO then w.c.state.PppoeInit? else p.d.code == PADS)
  {
    if NetInv(cfg, peer, w) {
      assert DownNet(cfg, peer, w.down[0]);
    } else {
      hide Options.WellFormed;
    }
  }

  lemma DeliverValues(cfg: Config, peer: Peer, w: World, service: seq<Byte>, a1: bool, a2: bool)
    requires ValueInv(peer, w, a1, a2) && Inv(cfg, peer, w) && w.down != [] && Compatible(cfg, peer, service)
    requires Inv(cfg, peer, Do(cfg, peer, w, Deliver))
    ensures ValueInv(peer, Do(cfg, peer, w, Deliver), a1, a2)
  {
    hide Receive, AsksFor, Inv, Compatible, Decoded, Learned.Tells, Do;
    var p := w.down[0];
    assert Offers(peer, a1, a2, p);
    NextDelivery(cfg, peer, w, service);
    PacketTells(cfg, w.c, p);
    DoDeliver(cfg, peer, w);
    var v := Do(cfg, peer, w, Deliver);
    OfferLeadsTo(cfg, peer, w);
    if v.naks > 0 && !Corrected(KnownBy(v.c)) {
      var q :| q in w.down && IsNak(q);
      assert q in w.down[1..];
    }
  }

  // A PADO does not make a session.
  lemma OfferLeadsTo(cfg: Config, peer: Peer, w: World)
    requires w.down != [] && w.down[0].Discovery? && w.down[0].d.code == PADO ==> w.c.state.PppoeInit?
    ensures w.down != [] && w.down[0].Discovery? && w.down[0].d.code == PADO ==>
      !HasSession(Do(cfg, peer, w, Deliver).c.state)
  {
    hide RxLcp, RxIpcp, RxIp6cp, RxPap, RxChap;
  }

  lemma ValueStep(cfg: Config, peer: Peer, w: World, a: Action, service: seq<Byte>, a1: bool, a2: bool)
    requires ValueInv(peer, w, a1, a2) && Inv(cfg, peer, w) && Can(w, a) && peer.address != 0 && Compatible(cfg, peer, service)
    ensures ValueInv(peer, Do(cfg, peer, w, a), a1, a2)
  {
    hide Inv, Compatible, Do, AsksFor, Offers, Corrected, IsNak, Transmit, Frame, Potential;
    StepInv(cfg, peer, w, a, service);
    match a
    case Send =>
      TransmitTells(cfg, w.c);
      SendAsks(cfg, peer, w);
      DoSend(cfg, peer, w);
      SendKeepsPhase(cfg, peer, w);
    case Answer(cookie) => AnswerValues(cfg, peer, w, cookie, a1, a2);
    case Deliver => DeliverValues(cfg, peer, w, service, a1, a2);
  }

  lemma SendKeepsPhase(cfg: Config, peer: Peer, w: World)
    requires Inv(cfg, peer, w)
    ensures Transmit(w.c).state == w.c.state
  {
    hide NetInv, UpdateState;
    if NetInv(cfg, peer, w) {
      NetPhase(cfg, peer, w);
    }
  }

  lemma NetPhase(cfg: Config, peer: Peer, w: World)
    requires NetInv(cfg, peer, w)
    ensures !w.c.state.Terminating?
  {
  }

  lemma {:induction false} PlayValues(cfg: Config, peer: Peer, w: World, actions: seq<Action>, service: seq<Byte>, a1: bool, a2: bool)
    requires ValueInv(peer, w, a1, a2) && Inv(cfg, peer, w) && Legal(cfg, peer, w, actions)
    requires peer.address != 0 && Compatible(cfg, peer, service)
    ensures ValueInv(peer, Play(cfg, peer, w, actions), a1, a2)
    decreases |actions|
  {
    hide Do, Inv, Potential, Compatible, ValueInv;
    if actions != [] {
      ValueStep(cfg, peer, w, actions[0], service, a1, a2);
      StepInv(cfg, peer, w, actions[0], service);
      PlayValues(cfg, peer, Do(cfg, peer, w, actions[0]), actions[1..], service, a1, a2);
    }
  }

  // Every interleaving of a compatible client with the responder takes at most
  // BOUND actions and sees at most one IPCP Conf-Nak, and when nothing is left to
  // do the session is established, every enabled NCP is open, and the client holds the
  // responder's session id, the allocated address and, if it was corrected, the DNS
  // servers it asked for.
  lemma Converges(cfg: Config, peer: Peer, w: World, actions: seq<Action>)
    requires Begins(cfg, w) && peer.address != 0 && Compatible(cfg, peer, w.c.pppoe.service)
    requires Legal(cfg, peer, w, actions)
    ensures |actions| <= BOUND
    ensures var v := Play(cfg, peer, w, actions);
      && v.naks <= 1
      && (Quiescent(v) ==>
            && v.c.state.Established? && v.c.pppoe.sessionId == peer.sessionId % 65536
            && (cfg.ipcpEnable ==> v.c.ipcp.state.Opened? && v.c.ip.address == peer.address)
            && (cfg.ip6cpEnable ==> v.c.ip6cp.state.Opened?)
            && (v.naks > 0 && w.c.ip.wantDns1 ==> v.c.ip.dns1 == MOCK_DNS1)
            && (v.naks > 0 && w.c.ip.wantDns2 ==> v.c.ip.dns2 == MOCK_DNS2))
  {
    hide InitInv, Potential, Do;
    BeginsInv(cfg, peer, w);
    assert Inv(cfg, peer, w);
    PlayInv(cfg, peer, w, actions, w.c.pppoe.service);
    var v := Play(cfg, peer, w, actions);
    hide Inv, NetInv;
    FewNaks(cfg, peer, v);
    PlayValues(cfg, peer, w, actions, w.c.pppoe.service, w.c.ip.wantDns1, w.c.ip.wantDns2);
    if Quiescent(v) {
      Rest(cfg, peer, v);
      NetRest(cfg, peer, v);
    }
  }

  lemma ComesToRest(cfg: Config, peer: Peer, w: World, service: seq<Byte>) returns (rest: seq<Action>)
    requires Inv(cfg, peer, w) && peer.address != 0 && Compatible(cfg, peer, service)
    ensures Legal(cfg, peer, w, rest) && Quiescent(Play(cfg, peer, w, rest))
    decreases Potential(peer, w)
  {
    hide Do, Inv, Potential, Compatible;
    if Quiescent(w) {
      rest := [];
    } else {
      var a := if w.c.send != {} then Send else if w.up != [] then Answer([]) else Deliver;
      StepInv(cfg, peer, w, a, service);
      var later := ComesToRest(cfg, peer, Do(cfg, peer, w, a), service);
      rest := [a] + later;
    }
  }

  // However a play has gone so far, it can be played on to an established session.
  lemma AlwaysCompletes(cfg: Config, peer: Peer, w: World, actions: seq<Action>) returns (rest: seq<Action>)
    requires Begins(cfg, w) && peer.address != 0 && Compatible(cfg, peer, w.c.pppoe.service)
    requires Legal(cfg, peer, w, actions)
    ensures Legal(cfg, peer, w, actions + rest)
    ensures Play(cfg, peer, w, actions + rest).c.state.Established?
  {
    hide InitInv, Potential, Do;
    BeginsInv(cfg, peer, w);
    assert Inv(cfg, peer, w);
    PlayInv(cfg, peer, w, actions, w.c.pppoe.service);
    hide Inv, Compatible;
    rest := ComesToRest(cfg, peer, Play(cfg, peer, w, actions), w.c.pppoe.service);
    PlayConcat(cfg, peer, w, actions, rest);
    Converges(cfg, peer, w, actions + rest);
  }

  lemma {:induction false} PlayConcat(cfg: Config, peer: Peer, w: World, a: seq<Action>, b: seq<Action>)
    requires Legal(cfg, peer, w, a) && Legal(cfg, peer, Play(cfg, peer, w, a), b)
    ensures Legal(cfg, peer, w, a + b)
    ensures Play(cfg, peer, w, a + b) == Play(cfg, peer, Play(cfg, peer, w, a), b)
    decreases |a|
  {
    hide Do;
    if a == [] {
      assert a + b == b;
    } else {
      PlayConcat(cfg, peer, Do(cfg, peer, w, a[0]), a[1..], b);
      assert (a + b)[0] == a[0] && (a + b)[1..] == a[1..] + b;
    }
  }

  // ---- With the responder's allocator

  // The address of the session is the one the responder allocated on first contact,
  // whatever the number of that allocation.
  lemma ConvergesToAllocated(cfg: Config, peer: Peer, w: World, actions: seq<Action>, n: nat)
    requires n > 0 && peer.address == Allocated(n)
    requires Begins(cfg, w) && Compatible(cfg, peer, w.c.pppoe.service) && Legal(cfg, peer, w, actions)
    requires Quiescent(Play(cfg, peer, w, actions))
    ensures var v := Play(cfg, peer, w, actions);
      v.c.state.Established? && (cfg.ipcpEnable ==> v.c.ip.address == Allocated(n) != 0)
  {
    hide Play, Legal, Allocated, Compatible, Begins;
    AllocatedNonZero(n);
    Converges(cfg, peer, w, actions);
  }

  // ---- Round trips

  // The client's request, the responder's two replies, and their reception: LCP opens
  // exactly when the client can do with PAP, which the responder asks for.
  lemma LcpRoundTripIff(cfg: Config, s: Session, id: Byte)
    requires s.state.PppLink? && s.lcp.state.Init? && s.lcp.requestCode == CONF_REQUEST
    ensures var rs := ReplyLcp(LcpRequest(s, id));
      |rs| == 2 && Decoded(rs[0]) && Decoded(rs[1])
      && var t := Receive(cfg, Receive(cfg, s, rs[0]), rs[1]);
      && (t.lcp.state.Opened? <==> cfg.authentication == 0 || cfg.authentication == PROTOCOL_PAP)
      && (t.lcp.state.Opened? ==> t.state.PppAuth? && t.auth == PROTOCOL_PAP)
      && (!t.lcp.state.Opened? ==> t.lcp.state.LocalAck? && t.lcp.responseCode == CONF_NAK)
  {
    LcpOptionsWellFormed((LcpRequest(s, id).magic + 1) % WORD);
    hide LcpOptionBytes, Options.WellFormed;
  }

  // The same for IP6CP, which opens exactly when it is not switched off globally.
  lemma Ip6cpRoundTripIff(cfg: Config, s: Session, id: Byte)
    requires s.state.PppNetwork? && s.lcp.state.Opened? && s.ip6cp.state.Init? && s.ip6cp.requestCode == CONF_REQUEST
    ensures var rs := ReplyIp6cp(Ip6cpRequest(s, id));
      |rs| == 2 && Decoded(rs[0]) && Decoded(rs[1])
      && var t := Receive(cfg, Receive(cfg, s, rs[0]), rs[1]);
      && (t.ip6cp.state.Opened? <==> cfg.ip6cpGlobal)
      && (cfg.ip6cpGlobal ==> t.ip6.peerInterfaceId == 1 && t.ip6.interfaceId == s.ip6.interfaceId)
  {
    hide InterfaceOption;
  }
}
