/**
 IPoE sessions: a session comes up when ARP and router advertisement have both
 done their part, in whatever order they arrive, and a broadcast frame reaches
 every session on its interface.
 */
module Ipoe {
  import opened Types

  datatype DhcpState = DhcpDisabled | DhcpInit | DhcpSelecting | DhcpRequesting | DhcpBound | DhcpRenewing | DhcpRelease

  // DHCP is in use and has not got a lease yet.
  predicate Leaseless(d: DhcpState) {
    d.DhcpInit? || d.DhcpSelecting? || d.DhcpRequesting?
  }

  const ARP_REQUEST := 1
  const ARP_REPLY := 2

  datatype Frame =
    | Arp(code: nat, sender: Mac, senderIp: nat, targetIp: nat)
    | Ra(src: Mac, prefix: nat, prefixLen: nat)

  datatype AccessType = AccessPppoe | AccessIpoe

  datatype IpoeConfig = IpoeConfig(ipv4: bool, ipv6: bool)

  // Addresses, the prefix and its length, and the hardware address of the gateway.
  datatype Net = Net(ip: nat, peerIp: nat, prefix: nat, prefixLen: nat, serverMac: Mac)

  datatype Rx = Rx(packets: nat, bytes: nat)

  datatype IpoeSession = IpoeSession(
    state: SessionState, dhcp: DhcpState, dhcpv6: DhcpState,
    arpResolved: bool, raReceived: bool, net: Net, arpReplyDue: bool, rx: Rx)

  // ---- One frame

  predicate Ready4(cfg: IpoeConfig, s: IpoeSession) {
    !cfg.ipv4 || (s.arpResolved && !Leaseless(s.dhcp))
  }

  predicate Ready6(cfg: IpoeConfig, s: IpoeSession) {
    !cfg.ipv6 || (s.raReceived && !Leaseless(s.dhcpv6))
  }

  function CheckIpoe(cfg: IpoeConfig, s: IpoeSession): IpoeSession {
    if Ready4(cfg, s) && Ready6(cfg, s) then s.(state := Established) else s
  }

  // An ARP reply of the gateway.
  predicate Answers(s: IpoeSession, f: Frame) {
    f.Arp? && f.code == ARP_REPLY && f.senderIp == s.net.peerIp
  }

  function RxArp(cfg: IpoeConfig, s: IpoeSession, f: Frame): IpoeSession
    requires f.Arp?
  {
    if f.senderIp != s.net.peerIp then s
    else if f.code == ARP_REQUEST then (if f.targetIp == s.net.ip then s.(arpReplyDue := true) else s)
    else if f.code == ARP_REPLY && !s.arpResolved then
      CheckIpoe(cfg, s.(arpResolved := true, net := s.net.(serverMac := f.sender)))
    else s
  }

  function RxRa(cfg: IpoeConfig, s: IpoeSession, f: Frame): IpoeSession
    requires f.Ra?
  {
    if s.raReceived then s
    else
      var n := if f.prefixLen != 0 then s.net.(prefix := f.prefix, prefixLen := f.prefixLen) else s.net;
      CheckIpoe(cfg, s.(raReceived := true, net := if s.arpResolved then n else n.(serverMac := f.src)))
  }

  function RxFrame(cfg: IpoeConfig, s: IpoeSession, f: Frame): IpoeSession {
    if s.state.Terminated? || s.state.Idle? then s
    else if f.Arp? then RxArp(cfg, s, f) else RxRa(cfg, s, f)
  }

  function Deliver(cfg: IpoeConfig, s: IpoeSession, fs: seq<Frame>): IpoeSession {
    if fs == [] then s else RxFrame(cfg, Deliver(cfg, s, fs[..|fs| - 1]), fs[|fs| - 1])
  }

  // How often a run enters the established state.
  function Entries(cfg: IpoeConfig, s: IpoeSession, fs: seq<Frame>): nat {
    if fs == [] then 0
    else
      var t := Deliver(cfg, s, fs[..|fs| - 1]);
      Entries(cfg, s, fs[..|fs| - 1])
      + (if !t.state.Established? && RxFrame(cfg, t, fs[|fs| - 1]).state.Established? then 1 else 0)
  }

  // ---- What decides the outcome

  // The first reply of the gateway, and the first router advertisement.
  function FirstAnswer(s: IpoeSession, fs: seq<Frame>): (r: Option<Frame>)
    ensures r.Some? ==> r.value in fs && Answers(s, r.value)
    ensures r.None? ==> forall f :: f in fs ==> !Answers(s, f)
  {
    if fs == [] then None
    else if Answers(s, fs[0]) then Some(fs[0])
    else FirstAnswer(s, fs[1..])
  }

  function FirstRa(fs: seq<Frame>): (r: Option<Frame>)
    ensures r.Some? ==> r.value in fs && r.value.Ra?
    ensures r.None? ==> forall f :: f in fs ==> !f.Ra?
  {
    if fs == [] then None
    else if fs[0].Ra? then Some(fs[0])
    else FirstRa(fs[1..])
  }

  lemma {:induction false} FirstAnswerSnoc(s: IpoeSession, fs: seq<Frame>)
    requires fs != []
    ensures var before := FirstAnswer(s, fs[..|fs| - 1]);
      FirstAnswer(s, fs) == if before.Some? then before
                            else if Answers(s, fs[|fs| - 1]) then Some(fs[|fs| - 1]) else None
  {
    if |fs| > 1 {
      FirstAnswerSnoc(s, fs[1..]);
      assert fs[1..][..|fs| - 2] == fs[..|fs| - 1][1..];
    }
  }

  lemma {:induction false} FirstRaSnoc(fs: seq<Frame>)
    requires fs != []
    ensures var before := FirstRa(fs[..|fs| - 1]);
      FirstRa(fs) == if before.Some? then before
                     else if fs[|fs| - 1].Ra? then Some(fs[|fs| - 1]) else None
  {
    if |fs| > 1 {
      FirstRaSnoc(fs[1..]);
      assert fs[1..][..|fs| - 2] == fs[..|fs| - 1][1..];
    }
  }

  // A session that was just set up.
  predicate Fresh(s: IpoeSession) {
    s.state.IpoeSetup? && !s.arpResolved && !s.raReceived
  }

  // The session that setup makes of the frames received, told without their order
  // except for who was first.
  function Outcome(cfg: IpoeConfig, s: IpoeSession, answer: Option<Frame>, ra: Option<Frame>): IpoeSession
    requires answer.Some? ==> answer.value.Arp?
    requires ra.Some? ==> ra.value.Ra?
  {
    var mac := if answer.Some? then answer.value.sender else if ra.Some? then ra.value.src else s.net.serverMac;
    var n := if ra.Some? && ra.value.prefixLen != 0
             then s.net.(prefix := ra.value.prefix, prefixLen := ra.value.prefixLen) else s.net;
    var t := s.(arpResolved := answer.Some?, raReceived := ra.Some?, net := n.(serverMac := mac));
    if answer.Some? || ra.Some? then CheckIpoe(cfg, t) else t
  }

  predicate SameButDue(s: IpoeSession, t: IpoeSession) {
    s == t.(arpReplyDue := s.arpReplyDue)
  }

  lemma OutcomeStep(cfg: IpoeConfig, s: IpoeSession, t: IpoeSession, answer: Option<Frame>, ra: Option<Frame>, f: Frame)
    requires Fresh(s) && (answer.Some? ==> Answers(s, answer.value)) && (ra.Some? ==> ra.value.Ra?)
    requires SameButDue(t, Outcome(cfg, s, answer, ra))
    ensures var answer' := if answer.None? && Answers(s, f) then Some(f) else answer;
      var ra' := if ra.None? && f.Ra? then Some(f) else ra;
      && SameButDue(RxFrame(cfg, t, f), Outcome(cfg, s, answer', ra'))
      && (t.state.Established? ==> RxFrame(cfg, t, f).state.Established?)
  {
  }

  // Any sequence of ARP packets and router advertisements, in any order and with
  // any repetitions, ends in the state that the first reply of the gateway and the
  // first advertisement decide, and comes up at most once.
  lemma {:induction false} Confluence(cfg: IpoeConfig, s: IpoeSession, fs: seq<Frame>)
    requires Fresh(s)
    ensures SameButDue(Deliver(cfg, s, fs), Outcome(cfg, s, FirstAnswer(s, fs), FirstRa(fs)))
    ensures Entries(cfg, s, fs) == if Deliver(cfg, s, fs).state.Established? then 1 else 0
  {
    if fs != [] {
      hide RxFrame, Outcome, Answers, SameButDue;
      var n := |fs| - 1;
      Confluence(cfg, s, fs[..n]);
      FirstAnswerSnoc(s, fs);
      FirstRaSnoc(fs);
      OutcomeStep(cfg, s, Deliver(cfg, s, fs[..n]), FirstAnswer(s, fs[..n]), FirstRa(fs[..n]), fs[n]);
    }
  }

  // A dual-stack session with its leases is established exactly when both a reply
  // of the gateway and an advertisement arrived, and then talks to the sender of
  // the first reply.
  lemma DualStack(cfg: IpoeConfig, s: IpoeSession, fs: seq<Frame>)
    requires Fresh(s) && cfg.ipv4 && cfg.ipv6 && !Leaseless(s.dhcp) && !Leaseless(s.dhcpv6)
    ensures var t := Deliver(cfg, s, fs);
      && (t.state.Established? <==> (exists f :: f in fs && Answers(s, f)) && (exists f :: f in fs && f.Ra?))
      && ((exists f :: f in fs && Answers(s, f)) ==>
            FirstAnswer(s, fs).Some? && t.net.serverMac == FirstAnswer(s, fs).value.sender)
      && Entries(cfg, s, fs) == if t.state.Established? then 1 else 0
  {
    hide RxFrame, Deliver, Answers, FirstAnswer, FirstRa, Entries;
    Confluence(cfg, s, fs);
    var answer, ra := FirstAnswer(s, fs), FirstRa(fs);
    AnswerIsArp(s, fs);
    assert (exists f :: f in fs && Answers(s, f)) <==> answer.Some?;
    assert (exists f :: f in fs && f.Ra?) <==> ra.Some?;
  }

  // The states in which DHCP does not hold the session back: it is not used, or it has or
  // had a lease.
  predicate Served(d: DhcpState) {
    match d
    case DhcpDisabled => true
    case DhcpInit => false
    case DhcpSelecting => false
    case DhcpRequesting => false
    case DhcpBound => true
    case DhcpRenewing => true
    case DhcpRelease => true
  }

  ghost predicate Answered(s: IpoeSession, fs: seq<Frame>) {
    exists f :: f in fs && f.Arp? && f.code == 2 && f.senderIp == s.net.peerIp
  }

  ghost predicate Advertised(fs: seq<Frame>) {
    exists f :: f in fs && f.Ra?
  }

  // For every configuration, every state of DHCP and any sequence of frames: the session
  // is established exactly when some frame counted, and for each enabled family the ARP
  // reply or the advertisement arrived and DHCP does not hold it back.
  lemma EstablishedIff(cfg: IpoeConfig, s: IpoeSession, fs: seq<Frame>)
    requires Fresh(s)
    ensures Deliver(cfg, s, fs).state.Established? <==>
      && (Answered(s, fs) || Advertised(fs))
      && (cfg.ipv4 ==> Answered(s, fs) && Served(s.dhcp))
      && (cfg.ipv6 ==> Advertised(fs) && Served(s.dhcpv6))
  {
    hide RxFrame, Deliver, FirstAnswer, FirstRa, Entries;
    Confluence(cfg, s, fs);
    var answer, ra := FirstAnswer(s, fs), FirstRa(fs);
    AnswerIsArp(s, fs);
    assert Answered(s, fs) <==> answer.Some?;
    assert Advertised(fs) <==> ra.Some?;
  }

  // What the session learns: the prefix of the first advertisement, if it has one, and
  // the gateway from the first reply, or else from the first advertisement.
  lemma LearnsFirst(cfg: IpoeConfig, s: IpoeSession, fs: seq<Frame>)
    requires Fresh(s)
    ensures var n, answer, ra := Deliver(cfg, s, fs).net, FirstAnswer(s, fs), FirstRa(fs);
      && n.ip == s.net.ip && n.peerIp == s.net.peerIp
      && (if ra.Some? && ra.value.prefixLen > 0 then n.prefix == ra.value.prefix && n.prefixLen == ra.value.prefixLen
          else n.prefix == s.net.prefix && n.prefixLen == s.net.prefixLen)
      && (answer.Some? ==> answer.value.Arp? && n.serverMac == answer.value.sender)
      && (answer.None? && ra.Some? ==> n.serverMac == ra.value.src)
      && (answer.None? && ra.None? ==> n.serverMac == s.net.serverMac)
  {
    hide RxFrame, Deliver, Answers, FirstAnswer, FirstRa, Entries, CheckIpoe;
    Confluence(cfg, s, fs);
    AnswerIsArp(s, fs);
    CheckKeepsNet(cfg);
  }

  lemma CheckKeepsNet(cfg: IpoeConfig)
    ensures forall s :: CheckIpoe(cfg, s).net == s.net
  {
  }

  // An ARP request of the gateway for the address of the session.
  predicate AsksFor(s: IpoeSession, f: Frame) {
    f.Arp? && f.code == 1 && f.senderIp == s.net.peerIp && f.targetIp == s.net.ip
  }

  lemma DueStep(cfg: IpoeConfig, s: IpoeSession, f: Frame)
    requires !s.state.Terminated? && !s.state.Idle?
    ensures var t := RxFrame(cfg, s, f);
      && t.arpReplyDue == (s.arpReplyDue || AsksFor(s, f))
      && t.net.ip == s.net.ip && t.net.peerIp == s.net.peerIp && !t.state.Terminated? && !t.state.Idle?
  {
  }

  // A reply is due exactly when the gateway asked for the session's address; a session
  // that is idle or terminated takes no frame.
  lemma {:induction false} RepliesWhenAsked(cfg: IpoeConfig, s: IpoeSession, fs: seq<Frame>)
    ensures var t := Deliver(cfg, s, fs);
      if s.state.Terminated? || s.state.Idle? then t == s
      else
        && (t.arpReplyDue <==> s.arpReplyDue || exists f :: f in fs && AsksFor(s, f))
        && t.net.ip == s.net.ip && t.net.peerIp == s.net.peerIp && !t.state.Terminated? && !t.state.Idle?
  {
    if fs != [] {
      var n := |fs| - 1;
      RepliesWhenAsked(cfg, s, fs[..n]);
      if !s.state.Terminated? && !s.state.Idle? {
        hide RxFrame;
        DueStep(cfg, Deliver(cfg, s, fs[..n]), fs[n]);
        assert fs == fs[..n] + [fs[n]];
        assert AsksFor(Deliver(cfg, s, fs[..n]), fs[n]) == AsksFor(s, fs[n]);
        if AsksFor(s, fs[n]) {
          assert fs[n] in fs;
        }
        assert forall f :: f in fs <==> f in fs[..n] || f == fs[n];
      }
    }
  }

  lemma AnswerIsArp(s: IpoeSession, fs: seq<Frame>)
    ensures FirstAnswer(s, fs).Some? ==> FirstAnswer(s, fs).value.Arp?
  {
    hide FirstAnswer;
  }

  // ---- Sessions in memory

  class IpoeClient {
    const cfg: IpoeConfig
    const access: AccessType
    const port: nat
    var state: SessionState
    var dhcp: DhcpState
    var dhcpv6: DhcpState
    var arpResolved: bool
    var raReceived: bool
    var net: Net
    var arpReplyDue: bool
    var rx: Rx

    function Snapshot(): IpoeSession
      reads this
    {
      IpoeSession(state, dhcp, dhcpv6, arpResolved, raReceived, net, arpReplyDue, rx)
    }

    constructor (cfg: IpoeConfig, access: AccessType, port: nat, s: IpoeSession)
      ensures this.cfg == cfg && this.access == access && this.port == port && Snapshot() == s
    {
      this.cfg, this.access, this.port := cfg, access, port;
      state, dhcp, dhcpv6, arpResolved := s.state, s.dhcp, s.dhcpv6, s.arpResolved;
      raReceived, net, arpReplyDue, rx := s.raReceived, s.net, s.arpReplyDue, s.rx;
    }

    method CheckEstablished()
      modifies `state
      ensures Snapshot() == CheckIpoe(cfg, old(Snapshot()))
    {
      var ipv4, ipv6 := true, true;
      if cfg.ipv4 && (!arpResolved || Leaseless(dhcp)) {
        ipv4 := false;
      }
      if cfg.ipv6 && (!raReceived || Leaseless(dhcpv6)) {
        ipv6 := false;
      }
      if ipv4 && ipv6 {
        state := Established;
      }
    }

    method HandleArp(f: Frame)
      requires f.Arp?
      modifies this
      ensures Snapshot() == RxArp(cfg, old(Snapshot()), f)
    {
      hide CheckIpoe;
      if f.senderIp == net.peerIp {
        if f.code == ARP_REQUEST {
          if f.targetIp == net.ip {
            arpReplyDue := true;
          }
        } else if f.code == ARP_REPLY {
          if !arpResolved {
            arpResolved := true;
            net := net.(serverMac := f.sender);
            CheckEstablished();
          }
        }
      }
    }

    method HandleRa(f: Frame)
      requires f.Ra?
      modifies this
      ensures Snapshot() == RxRa(cfg, old(Snapshot()), f)
    {
      hide CheckIpoe;
      if !raReceived {
        raReceived := true;
        if f.prefixLen != 0 {
          net := net.(prefix := f.prefix, prefixLen := f.prefixLen);
        }
        if !arpResolved {
          net := net.(serverMac := f.src);
        }
        CheckEstablished();
      }
    }
  }

  // ---- Broadcast

  // A session the frame is for.
  predicate Eligible(c: IpoeClient, port: nat)
    reads c
  {
    c.port == port && c.access.AccessIpoe? && !c.state.Terminated? && !c.state.Idle?
  }

  function Counted(s: IpoeSession, length: nat): IpoeSession {
    s.(rx := Rx(s.rx.packets + 1, s.rx.bytes + length))
  }

  // What the frame does to one session on its own.
  function Alone(c: IpoeClient, port: nat, f: Frame, length: nat): IpoeSession
    requires f.Arp?
    reads c
  {
    if Eligible(c, port) then RxArp(c.cfg, Counted(c.Snapshot(), length), f) else c.Snapshot()
  }

  function EligibleCount(cs: seq<IpoeClient>, port: nat): nat
    reads cs
  {
    if cs == [] then 0 else EligibleCount(cs[..|cs| - 1], port) + (if Eligible(cs[|cs| - 1], port) then 1 else 0)
  }

  ghost predicate Separate(cs: seq<IpoeClient>) {
    forall i, j :: 0 <= i < j < |cs| ==> cs[i] != cs[j]
  }

  // The loop over all sessions gives each of them what processing the frame for it
  // alone would give, and counts the sessions that took the frame.
  method Broadcast(cs: seq<IpoeClient>, port: nat, f: Frame, length: nat, arpRx: nat) returns (count: nat)
    requires f.Arp? && Separate(cs)
    modifies cs
    ensures forall i :: 0 <= i < |cs| ==> cs[i].Snapshot() == old(Alone(cs[i], port, f, length))
    ensures count == arpRx + old(EligibleCount(cs, port))
    ensures forall i :: 0 <= i < |cs| ==>
      if cs[i].port == port && cs[i].access == AccessIpoe && old(cs[i].state) != Idle && old(cs[i].state) != Terminated
      then cs[i].rx.packets == old(cs[i].rx.packets) + 1 && cs[i].rx.bytes == old(cs[i].rx.bytes) + length
      else cs[i].Snapshot() == old(cs[i].Snapshot())
  {
    hide RxArp;
    count := arpRx;
    for i := 0 to |cs|
      invariant forall k :: 0 <= k < i ==> cs[k].Snapshot() == old(Alone(cs[k], port, f, length))
      invariant forall k :: i <= k < |cs| ==> cs[k].Snapshot() == old(cs[k].Snapshot())
      invariant count == arpRx + old(EligibleCount(cs[..i], port))
    {
      var c := cs[i];
      assert c.Snapshot() == old(c.Snapshot());
      assert cs[..i + 1][..i] == cs[..i];
      if c.port == port && c.access.AccessIpoe? && !c.state.Terminated? && !c.state.Idle? {
        c.rx := Rx(c.rx.packets + 1, c.rx.bytes + length);
        count := count + 1;
        c.HandleArp(f);
      }
    }
    assert cs[..|cs|] == cs;
    ArpKeepsRx();
  }

  lemma ArpKeepsRx()
    ensures forall cfg, s, f: Frame :: f.Arp? ==> RxArp(cfg, s, f).rx == s.rx
  {
  }
}
