/**
 What is sent in answer to the peer. Each control protocol has one slot for the
 response that is due: a code, an identifier and the option bytes. Handlers fill
 the slot, the transmit job sends whatever it holds by then. This module says
 which events write a slot, and from that which answers reach the wire.
 */
module Responses {
  import opened Types
  import opened ClientSpec
  import opened Skeleton
  import opened ClientRuns
  import Options

  datatype Proto = ForLcp | ForIpcp | ForIp6cp

  datatype Slot = Slot(code: Byte, id: Byte, options: seq<Byte>)

  function CpOf(s: Session, w: Proto): Cp {
    match w
    case ForLcp => s.lcp
    case ForIpcp => s.ipcp
    case ForIp6cp => s.ip6cp
  }

  function SlotOf(s: Session, w: Proto): Slot {
    Slot(CpOf(s, w).responseCode, CpOf(s, w).peerId, CpOf(s, w).options)
  }

  function ResponseBit(w: Proto): SendBit {
    match w
    case ForLcp => SendLcpResponse
    case ForIpcp => SendIpcpResponse
    case ForIp6cp => SendIp6cpResponse
  }

  // ---- Which events touch a slot

  // Drop forgets the options and keeps code and identifier.
  datatype Effect = Keep | Write(slot: Slot) | Drop

  function Apply(f: Effect, x: Slot): Slot {
    match f
    case Keep => x
    case Write(y) => y
    case Drop => x.(options := [])
  }

  predicate Attentive(s: Session) {
    !s.state.Terminated? && !s.state.Idle?
  }

  ghost function LcpPacketEffect(cfg: Config, s: Session, p: LcpPacket): Effect
    requires Decoded(Lcp(p))
  {
    if !Listening(s.state) && !(s.state.PppTerminating? && p.code == TERM_REQUEST) then Keep
    else if p.code == CONF_REQUEST then
      Write(if p.unknownOptions then Slot(CONF_REJECT, p.id, Options.LcpReject(p.options))
            else if NaksAuth(cfg, p) then Slot(CONF_NAK, p.id, SuggestedAuth(cfg))
            else Slot(CONF_ACK, p.id, KeptOptions(s.lcp.options, p.options)))
    else if p.code == VENDOR_SPECIFIC then
      (if cfg.vendorIgnore then Keep
       else if cfg.connectionStatus && p.vendorKind == 1 && p.vendorValueLen > 2
       then Write(Slot(VENDOR_SPECIFIC, p.id, Bytes32(s.link.magic) + p.vendorOui + [2]))
       else Write(Slot(CODE_REJECT, p.id, Truncated(p.raw))))
    else if p.code == ECHO_REQUEST then (if cfg.echoRequestIgnore then Keep else Write(Slot(ECHO_REPLY, p.id, [])))
    else if p.code == TERM_REQUEST then Write(Slot(TERM_ACK, p.id, []))
    else if p.code in {CONF_ACK, CONF_NAK, ECHO_REPLY, TERM_ACK, PROT_REJECT} then Keep
    else Write(Slot(CODE_REJECT, p.id, Truncated(p.raw)))
  }

  // A packet of an NCP that is switched off is answered with a Protocol-Reject.
  predicate Refuses(cfg: Config, s: Session, p: Packet) {
    s.lcp.state.Opened? && ((p.Ipcp? && !cfg.ipcpGlobal) || (p.Ip6cp? && !cfg.ip6cpGlobal))
  }

  function RefusalEffect(s: Session, p: Packet): Effect {
    Write(Slot(PROT_REJECT, Bump(s.lcp.id), Net16(if p.Ipcp? then PROTOCOL_IPCP else PROTOCOL_IP6CP)))
  }

  // A failed login, which terminates the link.
  predicate LoginFails(s: Session, p: Packet) {
    && s.state.PppAuth?
    && ((p.Pap? && p.papCode != PAP_ACK)
        || (p.Chap? && p.chapCode != CHAP_SUCCESS && !(p.chapCode == CHAP_CHALLENGE && p.challengeLen > 0)))
  }

  ghost function LcpEffect(cfg: Config, s: Session, e: Event): Effect
    requires Proper(e)
  {
    match e
    case Rx(p) =>
      if !Attentive(s) then Keep
      else if p.Lcp? then LcpPacketEffect(cfg, s, p.lcp)
      else if Refuses(cfg, s, p) then RefusalEffect(s, p)
      else if LoginFails(s, p) then Drop
      else Keep
    case LcpEcho => if s.state.Established? && s.lcp.retries <= cfg.keepaliveRetry then Drop else Keep
    case LcpTimeout => if s.state.PppTerminating? && s.lcp.retries <= 3 then Drop else Keep
    case PapTimeout => if s.state.PppAuth? && s.login.retries > cfg.authRetry then Drop else Keep
    case ChapTimeout => if s.state.PppAuth? && s.login.retries > cfg.authRetry then Drop else Keep
    case IpcpTimeout =>
      if s.state.PppNetwork? && !s.ipcp.state.Opened? && s.ipcp.retries > cfg.ipcpRetry && s.ip6cp.state.Closed?
      then Drop else Keep
    case Ip6cpTimeout =>
      if s.state.PppNetwork? && !s.ip6cp.state.Opened? && s.ip6cp.retries > cfg.ip6cpRetry && s.ipcp.state.Closed?
      then Drop else Keep
    case SessionTimeout => if s.state.Established? then Drop else Keep
    case Clear => if Rank(PppAuth) <= Rank(s.state) <= Rank(PppTerminating) then Drop else Keep
    case Restart => if s.state.Terminated? then Write(Slot(0, s.lcp.peerId, [])) else Keep
    case _ => Keep
  }

  ghost function IpcpEffect(cfg: Config, s: Session, e: Event): Effect
    requires Proper(e)
  {
    if !(e.Rx? && e.packet.Ipcp? && Attentive(s) && s.lcp.state.Opened? && cfg.ipcpGlobal) then Keep
    else
      var p := e.packet.ipcp;
      if p.code == CONF_REQUEST then
        Write(if AcceptsIpcp(p) then Slot(CONF_ACK, p.id, KeptOptions(s.ipcp.options, p.options))
              else Slot(CONF_REJECT, p.id, Options.IpcpReject(p.options)))
      else if p.code == TERM_REQUEST then Write(Slot(TERM_ACK, p.id, []))
      else Keep
  }

  function Ip6cpEffect(cfg: Config, s: Session, e: Event): Effect {
    if !(e.Rx? && e.packet.Ip6cp? && Attentive(s) && s.lcp.state.Opened? && cfg.ip6cpGlobal) then Keep
    else
      var p := e.packet.ip6cp;
      if p.code == CONF_REQUEST then Write(Slot(CONF_ACK, p.id, KeptOptions(s.ip6cp.options, p.options)))
      else if p.code == TERM_REQUEST then Write(Slot(TERM_ACK, p.id, s.ip6cp.options))
      else Keep
  }

  ghost function EffectOf(cfg: Config, s: Session, w: Proto, e: Event): Effect
    requires Proper(e)
  {
    match w
    case ForLcp => LcpEffect(cfg, s, e)
    case ForIpcp => IpcpEffect(cfg, s, e)
    case ForIp6cp => Ip6cpEffect(cfg, s, e)
  }

  // ---- That these are all

  lemma SlotState(s: Session, w: Proto, next: SessionState)
    ensures SlotOf(UpdateState(s, next), w) == SlotOf(s, w)
  {
  }

  lemma SlotPhases(cfg: Config, s: Session, w: Proto, next: SessionState)
    ensures SlotOf(UpdateState(s, next), w) == SlotOf(s, w)
    ensures SlotOf(LcpOpened(cfg, s), w) == SlotOf(s, w)
    ensures SlotOf(CheckEstablished(s), w) == SlotOf(s, w)
    ensures SlotOf(AbandonLink(s), w) == SlotOf(s, w)
    ensures SlotOf(TerminateLink(s), w) == if w.ForLcp? then SlotOf(s, w).(options := []) else SlotOf(s, w)
    ensures SlotOf(EnterNetwork(cfg, s), w) == SlotOf(s, w)
  {
    hide UpdateState;
    var t := s.(lcp := s.lcp.(state := Opened));
    SlotState(s, w, next);
    SlotState(s, w, Established);
    SlotState(s, w, PppTerminating);
    SlotState(s, w, PppNetwork);
    SlotState(t, w, PppNetwork);
    SlotState(t, w, PppAuth);
    SlotState(CloseNcps(s), w, Terminating);
  }

  lemma SlotConfRequest(cfg: Config, s: Session, w: Proto, p: LcpPacket)
    requires Decoded(Lcp(p)) && Attentive(s) && Listening(s.state) && p.code == CONF_REQUEST
    ensures SlotOf(RxLcpConfRequest(cfg, s, p), w)
         == if w.ForLcp? then Apply(LcpPacketEffect(cfg, s, p), SlotOf(s, w)) else SlotOf(s, w)
  {
    hide Options.LcpReject, SuggestedAuth, Options.WellFormed, NaksAuth, NegotiatedAuth, LcpOpened;
    var t := s.(auth := NegotiatedAuth(cfg, s, p), link := HeardLink(s.link, p),
                lcp := s.lcp.(options := KeptOptions(s.lcp.options, p.options)));
    SlotPhases(cfg, t, w, Idle);
  }

  lemma SlotOtherLcp(cfg: Config, s: Session, w: Proto, p: LcpPacket)
    requires p.code in {CONF_ACK, TERM_REQUEST, PROT_REJECT, TERM_ACK, CONF_NAK, ECHO_REPLY}
    ensures p.code == CONF_ACK ==> SlotOf(RxLcpConfAck(cfg, s), w) == SlotOf(s, w)
    ensures p.code == PROT_REJECT ==> SlotOf(RxLcpProtReject(s, p), w) == SlotOf(s, w)
    ensures p.code == TERM_REQUEST ==>
      SlotOf(RxLcpTermRequest(s, p), w) == if w.ForLcp? then Slot(TERM_ACK, p.id, []) else SlotOf(s, w)
  {
    hide LcpOpened;
    SlotPhases(cfg, s.(lcp := s.lcp.(retries := 0)), w, Idle);
  }

  lemma SlotLcpPacket(cfg: Config, s: Session, w: Proto, p: LcpPacket)
    requires Decoded(Lcp(p)) && Attentive(s)
    ensures SlotOf(RxLcp(cfg, s, p), w)
         == if w.ForLcp? then Apply(LcpPacketEffect(cfg, s, p), SlotOf(s, w)) else SlotOf(s, w)
  {
    hide Options.LcpReject, SuggestedAuth, Options.WellFormed, Truncated, Bytes32, NaksAuth, NegotiatedAuth,
         RxLcpConfRequest, RxLcpConfAck, RxLcpTermRequest, RxLcpProtReject, AbandonLink;
    if Listening(s.state) && p.code == CONF_REQUEST {
      SlotConfRequest(cfg, s, w, p);
    } else if p.code in {CONF_ACK, TERM_REQUEST, PROT_REJECT, TERM_ACK, CONF_NAK, ECHO_REPLY} {
      SlotOtherLcp(cfg, s, w, p);
      SlotPhases(cfg, s.(lcp := s.lcp.(retries := 0)), w, Idle);
    }
  }

  lemma SlotNcpPacket(cfg: Config, s: Session, w: Proto, p: Packet)
    requires Decoded(p) && Attentive(s) && (p.Ipcp? || p.Ip6cp?)
    ensures SlotOf(Receive(cfg, s, p), w) == Apply(EffectOf(cfg, s, w, Rx(p)), SlotOf(s, w))
  {
    hide Options.IpcpReject, Options.WellFormed, Suggested, HeardPeer, Net16;
  }

  lemma SlotOtherPacket(cfg: Config, s: Session, w: Proto, p: Packet)
    requires Decoded(p) && Attentive(s) && !p.Ipcp? && !p.Ip6cp? && !p.Lcp?
    ensures SlotOf(Receive(cfg, s, p), w) == Apply(EffectOf(cfg, s, w, Rx(p)), SlotOf(s, w))
  {
    hide Options.WellFormed, HostUniqMatches;
  }

  lemma SlotClear(s: Session, w: Proto)
    ensures SlotOf(ClearSession(s), w)
         == if w.ForLcp? && Rank(PppAuth) <= Rank(s.state) <= Rank(PppTerminating) then SlotOf(s, w).(options := [])
            else SlotOf(s, w)
  {
  }

  lemma SlotTransmit(cfg: Config, s: Session, w: Proto)
    ensures SlotOf(Transmit(s), w) == SlotOf(s, w)
  {
    hide UpdateState, Served;
    SlotPhases(cfg, s, w, Terminated);
  }

  lemma SlotNcpTimer(cfg: Config, s: Session, w: Proto, e: Event)
    requires e.IpcpTimeout? || e.Ip6cpTimeout?
    ensures SlotOf(Step(cfg, s, e), w) == Apply(EffectOf(cfg, s, w, e), SlotOf(s, w))
  {
    hide ClearSession;
    SlotClear(s.(ipcp := s.ipcp.(state := Closed)), w);
    SlotClear(s.(ip6cp := s.ip6cp.(state := Closed)), w);
  }

  lemma SlotLocal(cfg: Config, s: Session, w: Proto, e: Event)
    requires !e.Rx?
    ensures SlotOf(Step(cfg, s, e), w) == Apply(EffectOf(cfg, s, w, e), SlotOf(s, w))
  {
    hide ClearSession, AbandonLink, UpdateState, Transmit, OnIpcpTimeout, OnIp6cpTimeout;
    if e.IpcpTimeout? || e.Ip6cpTimeout? {
      SlotNcpTimer(cfg, s, w, e);
    } else {
      SlotClear(s, w);
      SlotPhases(cfg, s, w, PppoeInit);
      SlotTransmit(cfg, s, w);
    }
  }

  // Every event leaves in the slots what its effect says.
  lemma SlotStep(cfg: Config, s: Session, w: Proto, e: Event)
    requires Proper(e)
    ensures SlotOf(Step(cfg, s, e), w) == Apply(EffectOf(cfg, s, w, e), SlotOf(s, w))
  {
    hide RxLcp, LcpPacketEffect;
    if !e.Rx? {
      SlotLocal(cfg, s, w, e);
    } else if Attentive(s) {
      if e.packet.Lcp? {
        SlotLcpPacket(cfg, s, w, e.packet.lcp);
      } else if e.packet.Ipcp? || e.packet.Ip6cp? {
        SlotNcpPacket(cfg, s, w, e.packet);
      } else {
        SlotOtherPacket(cfg, s, w, e.packet);
      }
    }
  }

  // ---- Which events touch the pending bit

  // A packet that starts the network phase.
  predicate EntersNetwork(cfg: Config, s: Session, p: Packet) {
    match p
    case Pap(code, _, _) => s.state.PppAuth? && code == PAP_ACK
    case Chap(code, _, _, _) => s.state.PppAuth? && code == CHAP_SUCCESS
    case Lcp(l) =>
      && Listening(s.state)
      && ((l.code == CONF_ACK && s.lcp.state.PeerAck? && !IsAuth(s.auth))
          || (l.code == CONF_REQUEST && s.lcp.state.LocalAck? && AcceptsLcp(cfg, l) && !IsAuth(NegotiatedAuth(cfg, s, l))))
    case _ => false
  }

  // A packet after which nothing is pending but what it asks for itself.
  predicate Overrides(cfg: Config, s: Session, p: Packet) {
    match p
    case Discovery(d) =>
      || d.code == PADT
      || (d.code == PADS && AcceptsPads(cfg, s, d))
      || (d.code == PADO && s.state.PppoeInit? && (s.pppoe.service == [] || ServiceMatches(s, d.service))
          && HostUniqMatches(cfg, d))
    case Lcp(l) =>
      (Listening(s.state) || s.state.PppTerminating?) && (l.code == TERM_ACK || l.code == TERM_REQUEST)
    case _ => false
  }

  // Events that cancel a pending response without filling its slot.
  predicate Cancels(cfg: Config, s: Session, w: Proto, e: Event) {
    match e
    case Rx(p) =>
      && Attentive(s)
      && (|| Overrides(cfg, s, p)
          || (EntersNetwork(cfg, s, p)
              && ((w.ForIpcp? && cfg.ipcpEnable) || (w.ForIp6cp? && cfg.ip6cpEnable))))
    case PadiTimeout => s.state.PppoeInit?
    case PadrTimeout => s.state.PppoeRequest?
    case LcpTimeout =>
      || (s.state.PppLink? && !s.lcp.state.Opened? && s.lcp.retries > cfg.lcpRetry)
      || (s.state.PppTerminating? && s.lcp.retries > 3)
    case LcpEcho => s.state.Established? && s.lcp.retries > cfg.keepaliveRetry
    case Clear => s.state.PppoeRequest? || s.state.PppLink?
    case Start => s.state.Idle?
    case _ => false
  }

  // A response is pending after an event that fills its slot, and stays pending until
  // it is cancelled or served. A reconnect empties the slot and leaves the bit alone.
  predicate Pends(cfg: Config, s: Session, w: Proto, e: Event, fills: bool) {
    || (fills && !e.Restart?)
    || (ResponseBit(w) in s.send && !Cancels(cfg, s, w, e) && !(e.Tx? && Served(s) == Some(ResponseBit(w))))
  }

  lemma BitPhases(cfg: Config, s: Session, w: Proto, next: SessionState)
    ensures UpdateState(s, next).send == s.send && CheckEstablished(s).send == s.send
    ensures ResponseBit(w) !in AbandonLink(s).send
    ensures ResponseBit(w) in TerminateLink(s).send <==> ResponseBit(w) in s.send
    ensures ResponseBit(w) in EnterNetwork(cfg, s).send <==>
      ResponseBit(w) in s.send && !((w.ForIpcp? && cfg.ipcpEnable) || (w.ForIp6cp? && cfg.ip6cpEnable))
    ensures ResponseBit(w) in LcpOpened(cfg, s).send <==>
      ResponseBit(w) in s.send && (IsAuth(s.auth) || !((w.ForIpcp? && cfg.ipcpEnable) || (w.ForIp6cp? && cfg.ip6cpEnable)))
  {
  }

  lemma BitConfRequest(cfg: Config, s: Session, w: Proto, p: LcpPacket)
    requires Decoded(Lcp(p)) && Attentive(s) && Listening(s.state) && p.code == CONF_REQUEST
    ensures ResponseBit(w) in RxLcpConfRequest(cfg, s, p).send <==> Pends(cfg, s, w, Rx(Lcp(p)), w.ForLcp?)
  {
    hide Options.LcpReject, SuggestedAuth, Options.WellFormed, NaksAuth, NegotiatedAuth, LcpOpened;
    var t := s.(auth := NegotiatedAuth(cfg, s, p), link := HeardLink(s.link, p),
                lcp := s.lcp.(options := KeptOptions(s.lcp.options, p.options)));
    BitPhases(cfg, t, w, Idle);
  }

  lemma BitOtherLcp(cfg: Config, s: Session, w: Proto, p: LcpPacket)
    requires Attentive(s) && Listening(s.state)
    ensures p.code == CONF_ACK ==> (ResponseBit(w) in RxLcpConfAck(cfg, s).send <==> Pends(cfg, s, w, Rx(Lcp(p)), false))
    ensures p.code == PROT_REJECT ==> (ResponseBit(w) in RxLcpProtReject(s, p).send <==> ResponseBit(w) in s.send)
  {
    hide LcpOpened, CheckEstablished;
    BitPhases(cfg, s.(lcp := s.lcp.(retries := 0)), w, Idle);
    BitPhases(cfg, s.(ipcp := s.ipcp.(state := PppState.Rejected)), w, Idle);
    BitPhases(cfg, s.(ip6cp := s.ip6cp.(state := PppState.Rejected)), w, Idle);
    BitPhases(cfg, s, w, Idle);
  }

  lemma BitLcpPacket(cfg: Config, s: Session, w: Proto, p: LcpPacket)
    requires Decoded(Lcp(p)) && Attentive(s)
    ensures ResponseBit(w) in RxLcp(cfg, s, p).send
      <==> Pends(cfg, s, w, Rx(Lcp(p)), w.ForLcp? && LcpPacketEffect(cfg, s, p).Write?)
  {
    hide Options.LcpReject, SuggestedAuth, Options.WellFormed, Truncated, Bytes32, NaksAuth, NegotiatedAuth,
         RxLcpConfRequest, RxLcpConfAck, RxLcpProtReject, AbandonLink, IsAuth, Served, AcceptsPads, HostUniqMatches;
    BitPhases(cfg, s.(lcp := s.lcp.(retries := 0)), w, Idle);
    if Listening(s.state) {
      BitOtherLcp(cfg, s, w, p);
      if p.code == CONF_REQUEST {
        BitConfRequest(cfg, s, w, p);
      }
    }
  }

  lemma BitNcpPacket(cfg: Config, s: Session, w: Proto, p: Packet)
    requires Decoded(p) && Attentive(s) && (p.Ipcp? || p.Ip6cp?)
    ensures ResponseBit(w) in Receive(cfg, s, p).send <==> Pends(cfg, s, w, Rx(p), EffectOf(cfg, s, w, Rx(p)).Write?)
  {
    hide Options.IpcpReject, Options.WellFormed, Suggested, HeardPeer, Net16;
  }

  lemma BitOtherPacket(cfg: Config, s: Session, w: Proto, p: Packet)
    requires Decoded(p) && Attentive(s) && !p.Ipcp? && !p.Ip6cp? && !p.Lcp?
    ensures ResponseBit(w) in Receive(cfg, s, p).send <==> Pends(cfg, s, w, Rx(p), EffectOf(cfg, s, w, Rx(p)).Write?)
  {
    hide Options.WellFormed, HostUniqMatches;
  }

  lemma BitClear(s: Session, w: Proto)
    ensures ResponseBit(w) in ClearSession(s).send
      <==> ResponseBit(w) in s.send && !s.state.PppoeRequest? && !s.state.PppLink?
  {
  }

  lemma BitTransmit(s: Session, w: Proto)
    ensures ResponseBit(w) in Transmit(s).send <==> ResponseBit(w) in s.send && Served(s) != Some(ResponseBit(w))
  {
  }

  lemma BitLocal(cfg: Config, s: Session, w: Proto, e: Event)
    requires !e.Rx?
    ensures ResponseBit(w) in Step(cfg, s, e).send <==> Pends(cfg, s, w, e, EffectOf(cfg, s, w, e).Write?)
  {
    hide ClearSession, AbandonLink, UpdateState, Transmit, Served;
    BitClear(s, w);
    BitClear(s.(ipcp := s.ipcp.(state := Closed)), w);
    BitClear(s.(ip6cp := s.ip6cp.(state := Closed)), w);
    BitPhases(cfg, s, w, PppoeInit);
    BitTransmit(s, w);
  }

  // These are all the events that make a response pending or end that.
  lemma BitStep(cfg: Config, s: Session, w: Proto, e: Event)
    requires Proper(e)
    ensures ResponseBit(w) in Step(cfg, s, e).send <==> Pends(cfg, s, w, e, EffectOf(cfg, s, w, e).Write?)
  {
    hide RxLcp, LcpPacketEffect, EntersNetwork, Overrides;
    if !e.Rx? {
      BitLocal(cfg, s, w, e);
    } else if Attentive(s) {
      if e.packet.Lcp? {
        BitLcpPacket(cfg, s, w, e.packet.lcp);
      } else if e.packet.Ipcp? || e.packet.Ip6cp? {
        BitNcpPacket(cfg, s, w, e.packet);
      } else {
        BitOtherPacket(cfg, s, w, e.packet);
      }
    }
  }

  // ---- Runs

  // The slot after a run, from the events alone.
  ghost function Written(cfg: Config, s: Session, w: Proto, es: seq<Event>): Slot
    requires AllProper(es)
  {
    if es == [] then SlotOf(s, w)
    else Apply(EffectAt(cfg, s, w, es, |es| - 1), Written(cfg, s, w, es[..|es| - 1]))
  }

  ghost function EffectAt(cfg: Config, s: Session, w: Proto, es: seq<Event>, k: nat): Effect
    requires AllProper(es) && k < |es|
  {
    EffectOf(cfg, Run(cfg, s, FRESH, es[..k]).0, w, es[k])
  }

  lemma {:induction false} SlotAfterRun(cfg: Config, s: Session, w: Proto, es: seq<Event>)
    requires AllProper(es)
    ensures SlotOf(Run(cfg, s, FRESH, es).0, w) == Written(cfg, s, w, es)
  {
    hide Step, Observe, EffectOf, SlotOf, Apply, Proper;
    if es != [] {
      var n := |es| - 1;
      SlotAfterRun(cfg, s, w, es[..n]);
      SlotStep(cfg, Run(cfg, s, FRESH, es[..n]).0, w, es[n]);
    }
  }

  // ---- The buffers

  lemma EffectFits(cfg: Config, s: Session, w: Proto, e: Event)
    requires Proper(e) && |CpOf(s, w).options| <= OPTIONS_BUFFER
    ensures var f := EffectOf(cfg, s, w, e); f.Write? ==> |f.slot.options| <= OPTIONS_BUFFER
  {
    hide Options.LcpReject, Options.IpcpReject, Options.WellFormed, NaksAuth, Attentive, Refuses, LoginFails, Listening;
    if e.Rx? && e.packet.Lcp? && e.packet.lcp.code == CONF_REQUEST {
      Options.LcpRejectContents(e.packet.lcp.options);
    } else if e.Rx? && e.packet.Ipcp? && e.packet.ipcp.code == CONF_REQUEST {
      Options.IpcpRejectContents(e.packet.ipcp.options);
    }
  }

  // In every run the option bytes kept for a response fit their buffer.
  lemma {:induction false} BuffersFit(cfg: Config, s: Session, w: Proto, es: seq<Event>)
    requires AllProper(es) && |CpOf(s, w).options| <= OPTIONS_BUFFER
    ensures |CpOf(Run(cfg, s, FRESH, es).0, w).options| <= OPTIONS_BUFFER
  {
    hide Step, Observe, EffectOf, Proper, CpOf;
    if es != [] {
      var n := |es| - 1;
      var t := Run(cfg, s, FRESH, es[..n]).0;
      BuffersFit(cfg, s, w, es[..n]);
      SlotStep(cfg, t, w, es[n]);
      EffectFits(cfg, t, w, es[n]);
    }
  }

  // A packet with a code that the client does not know, or a vendor packet that it does
  // not answer, is rejected with as much of it as fits (section 5.6 of RFC 1661).
  predicate CodeRejected(cfg: Config, s: Session, p: LcpPacket) {
    && Attentive(s) && Listening(s.state)
    && (|| p.code > ECHO_REPLY || p.code == CODE_REJECT || p.code == CONF_REJECT
        || (p.code == VENDOR_SPECIFIC && !cfg.vendorIgnore && !cfg.connectionStatus))
  }

  lemma CodeRejectCopies(cfg: Config, s: Session, p: LcpPacket)
    requires Decoded(Lcp(p)) && CodeRejected(cfg, s, p)
    ensures var t := Step(cfg, s, Rx(Lcp(p)));
      && SendLcpResponse in t.send && t.lcp.responseCode == CODE_REJECT && t.lcp.peerId == p.id
      && t.lcp.options <= p.raw && (|p.raw| <= OPTIONS_BUFFER ==> t.lcp.options == p.raw)
      && (|p.raw| > OPTIONS_BUFFER ==> |t.lcp.options| == OPTIONS_BUFFER)
  {
    hide Step, Options.WellFormed, Options.LcpReject;
    SlotStep(cfg, s, ForLcp, Rx(Lcp(p)));
    BitStep(cfg, s, ForLcp, Rx(Lcp(p)));
  }

  // ---- The wire

  // What a response without option bytes carries instead: what is known of the peer
  // (LCP), nothing (IPCP), or the own interface identifier (IP6CP).
  function Fallback(s: Session, w: Proto): seq<Byte> {
    match w
    case ForLcp => LcpOptionBytes(s.link.peerMru, s.auth, s.link.peerMagic)
    case ForIpcp => []
    case ForIp6cp => InterfaceOption(s.ip6.interfaceId)
  }

  function Shown(s: Session, w: Proto): seq<Byte> {
    if SlotOf(s, w).options != [] then SlotOf(s, w).options else Fallback(s, w)
  }

  function CodeOf(p: Packet): Byte {
    match p
    case Lcp(l) => l.code
    case Ipcp(i) => i.code
    case Ip6cp(i) => i.code
    case _ => 0
  }

  function IdOf(p: Packet): Byte {
    match p
    case Lcp(l) => l.id
    case Ipcp(i) => i.id
    case Ip6cp(i) => i.id
    case _ => 0
  }

  function OptionsOf(p: Packet): seq<Byte> {
    match p
    case Lcp(l) => l.options
    case Ipcp(i) => i.options
    case Ip6cp(i) => i.options
    case _ => []
  }

  predicate BelongsTo(p: Packet, w: Proto) {
    match w
    case ForLcp => p.Lcp?
    case ForIpcp => p.Ipcp?
    case ForIp6cp => p.Ip6cp?
  }

  // Exactly one packet goes out, with this code, identifier and options.
  predicate Sends(frames: seq<Packet>, w: Proto, x: Slot) {
    && |frames| == 1 && BelongsTo(frames[0], w)
    && CodeOf(frames[0]) == x.code && IdOf(frames[0]) == x.id && OptionsOf(frames[0]) == x.options
  }

  // The transmit job sends the slot.
  lemma FrameShows(cfg: Config, s: Session, w: Proto)
    requires Served(s) == Some(ResponseBit(w))
    ensures |Frame(cfg, s)| == 1 && BelongsTo(Frame(cfg, s)[0], w)
    ensures CodeOf(Frame(cfg, s)[0]) == SlotOf(s, w).code && IdOf(Frame(cfg, s)[0]) == SlotOf(s, w).id
    ensures OptionsOf(Frame(cfg, s)[0]) == if SlotOf(s, w).code == ECHO_REPLY && w.ForLcp? then [] else Shown(s, w)
  {
    hide LcpOptionBytes, InterfaceOption;
  }

  // ---- Acknowledgements

  // A Configure-Request that is acknowledged.
  predicate Acceptable(cfg: Config, s: Session, w: Proto, p: Packet) {
    Attentive(s) &&
    match w
    case ForLcp => p.Lcp? && p.lcp.code == CONF_REQUEST && Listening(s.state) && AcceptsLcp(cfg, p.lcp)
    case ForIpcp =>
      p.Ipcp? && p.ipcp.code == CONF_REQUEST && s.lcp.state.Opened? && cfg.ipcpGlobal && AcceptsIpcp(p.ipcp)
    case ForIp6cp => p.Ip6cp? && p.ip6cp.code == CONF_REQUEST && s.lcp.state.Opened? && cfg.ip6cpGlobal
  }

  lemma AcceptanceWrites(cfg: Config, s: Session, w: Proto, p: Packet)
    requires Decoded(p) && Acceptable(cfg, s, w, p)
    ensures EffectOf(cfg, s, w, Rx(p)) == Write(Slot(CONF_ACK, IdOf(p), KeptOptions(CpOf(s, w).options, OptionsOf(p))))
  {
    hide Options.WellFormed, Options.LcpReject, Options.IpcpReject, KeptOptions;
  }

  ghost predicate Repeats(cfg: Config, s: Session, w: Proto, es: seq<Event>, k: nat, code: Byte, id: Byte)
    requires AllProper(es) && k < |es|
  {
    var f := EffectAt(cfg, s, w, es, k);
    f.Write? && f.slot.code == code && f.slot.id == id
  }

  // No other request with this identifier gets the same kind of answer in the run:
  // then that one is the request to look at.
  ghost predicate NoneRepeats(cfg: Config, s: Session, w: Proto, es: seq<Event>, code: Byte, id: Byte)
    requires AllProper(es)
  {
    forall k :: 0 <= k < |es| ==> !Repeats(cfg, s, w, es, k, code, id)
  }

  ghost predicate NoneWrites(cfg: Config, s: Session, w: Proto, es: seq<Event>)
    requires AllProper(es)
  {
    forall k :: 0 <= k < |es| ==> !EffectAt(cfg, s, w, es, k).Write?
  }

  ghost predicate NoneDrops(cfg: Config, s: Session, w: Proto, es: seq<Event>)
    requires AllProper(es)
  {
    forall k :: 0 <= k < |es| ==> !EffectAt(cfg, s, w, es, k).Drop?
  }

  lemma PrefixEffects(cfg: Config, s: Session, w: Proto, es: seq<Event>, n: nat, k: nat)
    requires AllProper(es) && k < n <= |es|
    ensures EffectAt(cfg, s, w, es[..n], k) == EffectAt(cfg, s, w, es, k)
  {
    hide EffectOf, Run, Proper;
    assert es[..n][..k] == es[..k];
  }

  // What a run makes of an answer that is due.
  lemma {:induction false} AnswerAfter(cfg: Config, s: Session, w: Proto, es: seq<Event>, code: Byte, id: Byte)
    requires AllProper(es) && NoneRepeats(cfg, s, w, es, code, id)
    requires SlotOf(s, w).code == code && SlotOf(s, w).id == id
    ensures var x := Written(cfg, s, w, es);
      && (x.code == code && x.id == id <==> NoneWrites(cfg, s, w, es))
      && (NoneWrites(cfg, s, w, es) ==> x.options == if NoneDrops(cfg, s, w, es) then SlotOf(s, w).options else [])
  {
    hide EffectAt, Proper, SlotOf;
    if es != [] {
      var n := |es| - 1;
      var q := es[..n];
      forall k | 0 <= k < n
        ensures EffectAt(cfg, s, w, q, k) == EffectAt(cfg, s, w, es, k)
        ensures Repeats(cfg, s, w, q, k, code, id) == Repeats(cfg, s, w, es, k, code, id)
      {
        PrefixEffects(cfg, s, w, es, n, k);
      }
      AnswerAfter(cfg, s, w, q, code, id);
      assert !Repeats(cfg, s, w, es, n, code, id);
      assert NoneWrites(cfg, s, w, es) <==> NoneWrites(cfg, s, w, q) && !EffectAt(cfg, s, w, es, n).Write?;
      assert NoneDrops(cfg, s, w, es) <==> NoneDrops(cfg, s, w, q) && !EffectAt(cfg, s, w, es, n).Drop?;
    }
  }

  lemma FallbackShort(s: Session, w: Proto)
    ensures |Fallback(s, w)| <= 14
  {
  }

  // ---- When a response goes out

  ghost function StateAt(cfg: Config, s: Session, es: seq<Event>, k: nat): Session
    requires AllProper(es) && k <= |es|
  {
    Run(cfg, s, FRESH, es[..k]).0
  }

  // Nothing pending goes out before the response.
  predicate NextUp(s: Session, w: Proto) {
    Served(s.(send := s.send + {ResponseBit(w)})) == Some(ResponseBit(w))
  }

  lemma ServedWhenNextUp(s: Session, w: Proto)
    ensures Served(s) == Some(ResponseBit(w)) <==> ResponseBit(w) in s.send && NextUp(s, w)
  {
    if ResponseBit(w) in s.send {
      assert s.send + {ResponseBit(w)} == s.send;
    }
  }

  ghost predicate TurnAt(cfg: Config, s: Session, w: Proto, es: seq<Event>, k: nat)
    requires AllProper(es) && k < |es|
  {
    es[k].Tx? && NextUp(StateAt(cfg, s, es, k), w)
  }

  ghost predicate CancelsAt(cfg: Config, s: Session, w: Proto, es: seq<Event>, k: nat)
    requires AllProper(es) && k < |es|
  {
    Cancels(cfg, StateAt(cfg, s, es, k), w, es[k])
  }

  // Before the k-th event the response neither had its turn nor was cancelled.
  ghost predicate Undisturbed(cfg: Config, s: Session, w: Proto, es: seq<Event>, k: nat)
    requires AllProper(es) && k <= |es|
  {
    forall j :: 0 <= j < k ==> !TurnAt(cfg, s, w, es, j) && !CancelsAt(cfg, s, w, es, j)
  }

  lemma PendsNext(cfg: Config, s: Session, w: Proto, es: seq<Event>, k: nat)
    requires AllProper(es) && k < |es| && !EffectAt(cfg, s, w, es, k).Write?
    ensures ResponseBit(w) in StateAt(cfg, s, es, k + 1).send
      <==> ResponseBit(w) in StateAt(cfg, s, es, k).send && !TurnAt(cfg, s, w, es, k) && !CancelsAt(cfg, s, w, es, k)
  {
    hide Step, EffectOf, Cancels, NextUp, Served, Observe;
    assert es[..k + 1][..k] == es[..k];
    BitStep(cfg, StateAt(cfg, s, es, k), w, es[k]);
    ServedWhenNextUp(StateAt(cfg, s, es, k), w);
  }

  lemma WritesPrefix(cfg: Config, s: Session, w: Proto, es: seq<Event>, n: nat)
    requires AllProper(es) && n <= |es| && NoneWrites(cfg, s, w, es)
    ensures NoneWrites(cfg, s, w, es[..n])
  {
    hide EffectAt;
    forall j | 0 <= j < n ensures !EffectAt(cfg, s, w, es[..n], j).Write? {
      PrefixEffects(cfg, s, w, es, n, j);
    }
  }

  // As long as nothing fills the slot, a pending response stays pending exactly while
  // it is undisturbed.
  lemma {:induction false} PendsWhile(cfg: Config, s: Session, w: Proto, es: seq<Event>, k: nat)
    requires AllProper(es) && k <= |es| && ResponseBit(w) in s.send && NoneWrites(cfg, s, w, es[..k])
    ensures ResponseBit(w) in StateAt(cfg, s, es, k).send <==> Undisturbed(cfg, s, w, es, k)
  {
    hide Run, EffectAt, TurnAt, CancelsAt;
    if k == 0 {
      RunNothing(cfg, s, es);
    } else {
      WritesPrefix(cfg, s, w, es[..k], k - 1);
      assert es[..k][..k - 1] == es[..k - 1];
      PrefixEffects(cfg, s, w, es, k, k - 1);
      PendsWhile(cfg, s, w, es, k - 1);
      PendsNext(cfg, s, w, es, k - 1);
    }
  }

  lemma RunNothing(cfg: Config, s: Session, es: seq<Event>)
    requires AllProper(es)
    ensures StateAt(cfg, s, es, 0) == s
  {
    assert es[..0] == [];
  }

  // The k-th event is the turn of the response, and until then nothing filled its
  // slot or cancelled it.
  ghost predicate GoesOutAt(cfg: Config, s: Session, w: Proto, es: seq<Event>, k: nat)
    requires AllProper(es) && k < |es|
  {
    TurnAt(cfg, s, w, es, k) && NoneWrites(cfg, s, w, es[..k]) && Undisturbed(cfg, s, w, es, k)
  }

  // The k-th event serves the response, and it has this code, identifier and options.
  ghost predicate AnswersAt(cfg: Config, s: Session, w: Proto, es: seq<Event>, k: nat, x: Slot)
    requires AllProper(es) && k < |es|
  {
    var u := StateAt(cfg, s, es, k);
    es[k].Tx? && Served(u) == Some(ResponseBit(w)) && Sends(Frame(cfg, u), w, x)
  }

  // Options held in the slot reach the wire unless they are empty or dropped.
  ghost predicate Carries(cfg: Config, s: Session, w: Proto, es: seq<Event>, k: nat, options: seq<Byte>)
    requires AllProper(es) && k <= |es|
  {
    (options != [] && NoneDrops(cfg, s, w, es[..k])) || Fallback(StateAt(cfg, s, es, k), w) == options
  }

  lemma RepeatsPrefix(cfg: Config, s: Session, w: Proto, es: seq<Event>, k: nat, code: Byte, id: Byte)
    requires AllProper(es) && k <= |es| && NoneRepeats(cfg, s, w, es, code, id)
    ensures NoneRepeats(cfg, s, w, es[..k], code, id)
  {
    hide EffectAt;
    forall j | 0 <= j < k ensures !Repeats(cfg, s, w, es[..k], j, code, id) {
      PrefixEffects(cfg, s, w, es, k, j);
      assert !Repeats(cfg, s, w, es, j, code, id);
    }
  }

  // What the k-th event sends of a pending answer.
  lemma AnswersAtIff(cfg: Config, s: Session, w: Proto, es: seq<Event>, k: nat, options: seq<Byte>)
    requires AllProper(es) && k < |es| && ResponseBit(w) in s.send
    requires var x := SlotOf(s, w); NoneRepeats(cfg, s, w, es, x.code, x.id) && x.code != ECHO_REPLY
    requires SlotOf(s, w).options == options || |options| > 14
    ensures AnswersAt(cfg, s, w, es, k, SlotOf(s, w).(options := options))
      <==> GoesOutAt(cfg, s, w, es, k) && SlotOf(s, w).options == options && Carries(cfg, s, w, es, k, options)
  {
    hide Run, Served, Frame, EffectOf, Written, NoneWrites, NoneDrops, NoneRepeats, Fallback, Proper, Undisturbed, NextUp;
    var x := SlotOf(s, w);
    var u := StateAt(cfg, s, es, k);
    RepeatsPrefix(cfg, s, w, es, k, x.code, x.id);
    AnswerAfter(cfg, s, w, es[..k], x.code, x.id);
    SlotAfterRun(cfg, s, w, es[..k]);
    ServedWhenNextUp(u, w);
    FallbackShort(u, w);
    if Served(u) == Some(ResponseBit(w)) {
      FrameShows(cfg, u, w);
    }
    if NoneWrites(cfg, s, w, es[..k]) {
      PendsWhile(cfg, s, w, es, k);
    }
  }

  // ---- The whole story

  // Some transmission of the run serves the response with this content.
  ghost predicate Answered(cfg: Config, s: Session, w: Proto, es: seq<Event>, x: Slot)
    requires AllProper(es)
  {
    exists k :: 0 <= k < |es| && AnswersAt(cfg, s, w, es, k, x)
  }

  ghost predicate CarriedAt(cfg: Config, s: Session, w: Proto, es: seq<Event>, k: nat, options: seq<Byte>)
    requires AllProper(es) && k < |es|
  {
    GoesOutAt(cfg, s, w, es, k) && Carries(cfg, s, w, es, k, options)
  }

  // The whole story of an acknowledgement. An acceptable request p is received and any
  // events es follow. The transmit job sends the acknowledgement with the identifier
  // and the options of p exactly when the options fit the buffer, the response comes to
  // its turn, until then no event filled the slot with something else or cancelled the
  // response, and the options were not dropped, or are the fallback anyway. (Section
  // 5.2 of RFC 1661 wants the options of an acknowledgement to be those of the request.)
  lemma AckSentIff(cfg: Config, s: Session, w: Proto, p: Packet, es: seq<Event>)
    requires Decoded(p) && Acceptable(cfg, s, w, p) && |CpOf(s, w).options| <= OPTIONS_BUFFER
    requires AllProper(es) && NoneRepeats(cfg, Step(cfg, s, Rx(p)), w, es, CONF_ACK, IdOf(p))
    ensures var t := Step(cfg, s, Rx(p));
      Answered(cfg, t, w, es, Slot(CONF_ACK, IdOf(p), OptionsOf(p)))
      <==> |OptionsOf(p)| <= OPTIONS_BUFFER && exists k :: 0 <= k < |es| && CarriedAt(cfg, t, w, es, k, OptionsOf(p))
  {
    hide Step, EffectOf, NoneRepeats, Acceptable, Decoded, AllProper, AnswersAt, GoesOutAt, Carries;
    var t := Step(cfg, s, Rx(p));
    SlotStep(cfg, s, w, Rx(p));
    BitStep(cfg, s, w, Rx(p));
    AcceptanceWrites(cfg, s, w, p);
    forall k | 0 <= k < |es|
      ensures AnswersAt(cfg, t, w, es, k, Slot(CONF_ACK, IdOf(p), OptionsOf(p)))
        <==> |OptionsOf(p)| <= OPTIONS_BUFFER && CarriedAt(cfg, t, w, es, k, OptionsOf(p))
    {
      AnswersAtIff(cfg, t, w, es, k, OptionsOf(p));
    }
  }

  // A login that succeeds while the acknowledgement of an IPCP request is pending
  // cancels it, although nobody touches the slot: it is not sent, whatever follows.
  lemma AckCancelledByLogin(cfg: Config, s: Session, p: IpcpPacket, l2tp: bool, es: seq<Event>)
    requires Decoded(Ipcp(p)) && p.code == CONF_REQUEST && AcceptsIpcp(p) && 0 < |p.options| <= OPTIONS_BUFFER
    requires s.state.PppAuth? && s.lcp.state.Opened? && s.ipcp.state.Closed? && |s.ipcp.options| <= OPTIONS_BUFFER
    requires cfg.ipcpGlobal && cfg.ipcpEnable
    requires AllProper(es) && es != [] && es[0] == Rx(Pap(PAP_ACK, 1, l2tp))
    requires NoneRepeats(cfg, Step(cfg, s, Rx(Ipcp(p))), ForIpcp, es, CONF_ACK, p.id)
    ensures var t := Step(cfg, s, Rx(Ipcp(p)));
      && SendIpcpResponse in t.send && SlotOf(t, ForIpcp) == Slot(CONF_ACK, p.id, p.options)
      && EffectAt(cfg, t, ForIpcp, es, 0) == Keep
      && !Answered(cfg, t, ForIpcp, es, Slot(CONF_ACK, p.id, p.options))
  {
    hide Options.WellFormed, NoneRepeats, Answered, GoesOutAt, Carries;
    var t := Step(cfg, s, Rx(Ipcp(p)));
    assert t.state.PppAuth? && SendIpcpResponse in t.send;
    AckSentIff(cfg, s, ForIpcp, Ipcp(p), es);
    RunNothing(cfg, t, es);
    assert CancelsAt(cfg, t, ForIpcp, es, 0);
    forall k | 0 <= k < |es| ensures !CarriedAt(cfg, t, ForIpcp, es, k, p.options) {
      CancelledAtOnce(cfg, t, ForIpcp, es, k);
    }
  }

  lemma CancelledAtOnce(cfg: Config, s: Session, w: Proto, es: seq<Event>, k: nat)
    requires AllProper(es) && k < |es| && CancelsAt(cfg, s, w, es, 0) && !es[0].Tx?
    ensures !GoesOutAt(cfg, s, w, es, k)
  {
    hide CancelsAt;
  }

  // For example: an Echo-Request that arrives before the transmit job runs. The one
  // frame sent is the echo reply, and the acknowledgement is never sent.
  lemma AckLostToEcho(cfg: Config, s: Session, p: LcpPacket, id: Byte)
    requires Decoded(Lcp(p)) && p.code == CONF_REQUEST && AcceptsLcp(cfg, p) && 0 < |p.options| <= OPTIONS_BUFFER
    requires s.state.PppLink? && s.lcp.state.Init? && s.send == {} && !cfg.echoRequestIgnore
    ensures var t := Step(cfg, Step(cfg, s, Rx(Lcp(p))), Rx(Lcp(LcpPacket(ECHO_REQUEST, id))));
      && Frame(cfg, t) == [Lcp(LcpPacket(ECHO_REPLY, id, magic := s.link.magic))]
      && Step(cfg, t, Tx).send == {}
  {
    hide Options.WellFormed, NaksAuth, NegotiatedAuth;
    var t := Step(cfg, s, Rx(Lcp(p)));
    assert t.send == {SendLcpResponse} && t.state.PppLink?;
  }

  // Eleven magic numbers are 66 bytes: the acknowledgement carries the options of
  // the answer before.
  lemma OversizedAckIsStale(cfg: Config, s: Session, os: seq<Options.Tlv>, id: Byte)
    requires os == seq(11, _ => Options.Tlv(5, [0, 0, 0, 1]))
    requires cfg.authentication == 0 && s.state.PppLink? && s.lcp.state.Init? && s.send == {}
    requires 0 < |s.lcp.options| <= OPTIONS_BUFFER
    ensures Options.AllValid(os)
      && var p := LcpPacket(CONF_REQUEST, id, options := Options.EncodeAll(os), magic := 0x1000000);
      && Decoded(Lcp(p)) && Acceptable(cfg, s, ForLcp, Lcp(p))
      && Sends(Frame(cfg, Step(cfg, s, Rx(Lcp(p)))), ForLcp, Slot(CONF_ACK, id, s.lcp.options))
      && |p.options| == 66
  {
    Options.ParseEncode(os);
    Options.EncodeSize(os);
    Options.SameSize(os, 6);
    hide Options.WellFormed, Options.EncodeAll;
    var p := LcpPacket(CONF_REQUEST, id, options := Options.EncodeAll(os), magic := 0x1000000);
    assert Step(cfg, s, Rx(Lcp(p))).send == {SendLcpResponse};
  }

  // ---- Rejections

  // A Configure-Request that is answered with Configure-Reject.
  predicate Rejected(cfg: Config, s: Session, w: Proto, p: Packet) {
    Attentive(s) &&
    match w
    case ForLcp => p.Lcp? && p.lcp.code == CONF_REQUEST && Listening(s.state) && p.lcp.unknownOptions
    case ForIpcp =>
      p.Ipcp? && p.ipcp.code == CONF_REQUEST && s.lcp.state.Opened? && cfg.ipcpGlobal && !AcceptsIpcp(p.ipcp)
    case ForIp6cp => false
  }

  ghost function Offending(w: Proto, p: Packet): seq<Byte>
    requires Decoded(p) && (if w.ForLcp? then p.Lcp? && p.lcp.code == CONF_REQUEST else p.Ipcp? && p.ipcp.code == CONF_REQUEST)
  {
    if w.ForLcp? then Options.LcpReject(p.lcp.options) else Options.IpcpReject(p.ipcp.options)
  }

  lemma RejectionWrites(cfg: Config, s: Session, w: Proto, p: Packet)
    requires Decoded(p) && Rejected(cfg, s, w, p)
    ensures EffectOf(cfg, s, w, Rx(p)) == Write(Slot(CONF_REJECT, IdOf(p), Offending(w, p)))
  {
    hide Options.WellFormed, Options.LcpReject, Options.IpcpReject;
  }

  // The same story for a Configure-Reject: it reaches the wire with exactly the
  // offending options when the filter copied some and nothing intervened. If it
  // copied none, the frame names what is known of the peer instead.
  lemma RejectSentIff(cfg: Config, s: Session, w: Proto, p: Packet, es: seq<Event>)
    requires Decoded(p) && Rejected(cfg, s, w, p)
    requires AllProper(es) && NoneRepeats(cfg, Step(cfg, s, Rx(p)), w, es, CONF_REJECT, IdOf(p))
    ensures var t := Step(cfg, s, Rx(p));
      Answered(cfg, t, w, es, Slot(CONF_REJECT, IdOf(p), Offending(w, p)))
      <==> exists k :: 0 <= k < |es| && CarriedAt(cfg, t, w, es, k, Offending(w, p))
  {
    hide Step, EffectOf, NoneRepeats, Decoded, AllProper, AnswersAt, GoesOutAt, Carries, Offending;
    var t := Step(cfg, s, Rx(p));
    SlotStep(cfg, s, w, Rx(p));
    BitStep(cfg, s, w, Rx(p));
    RejectionWrites(cfg, s, w, p);
    forall k | 0 <= k < |es|
      ensures AnswersAt(cfg, t, w, es, k, Slot(CONF_REJECT, IdOf(p), Offending(w, p)))
        <==> CarriedAt(cfg, t, w, es, k, Offending(w, p))
    {
      AnswersAtIff(cfg, t, w, es, k, Offending(w, p));
    }
  }

  // An unknown option of 100 bytes does not fit the buffer: with an MRU known of the
  // peer, the Configure-Reject names option 1, which the client knows.
  lemma EmptyRejectNamesKnown(cfg: Config, s: Session, body: seq<Byte>, id: Byte)
    requires |body| == 98 && s.state.PppLink? && s.send == {} && s.link.peerMru != 0
    ensures var p := LcpPacket(CONF_REQUEST, id, options := [7, 100] + body, unknownOptions := true);
      && Decoded(Lcp(p)) && Offending(ForLcp, Lcp(p)) == []
      && var f := Frame(cfg, Step(cfg, s, Rx(Lcp(p))));
      && |f| == 1 && CodeOf(f[0]) == CONF_REJECT && |OptionsOf(f[0])| > 0 && OptionsOf(f[0])[0] == 1
  {
    var b := [7, 100] + body;
    assert b[100..] == [] && b[2..100] == body;
    assert Options.WellFormed([]) && Options.WellFormed(b);
    var o := Options.Tlv(7, body);
    assert Options.Parse(b[100..]) == [];
    assert Options.Parse(b) == [o];
    assert Options.FirstOf([o], Options.MAX_OPTIONS) == [o];
    assert [o][1..] == [];
    assert Options.Without([], Options.LCP_KNOWN) == [];
    assert Options.Without([o], Options.LCP_KNOWN) == [o];
    assert Options.Fit([], OPTIONS_BUFFER) == [];
    assert Options.Fit([o], OPTIONS_BUFFER) == [];
    var p := LcpPacket(CONF_REQUEST, id, options := b, unknownOptions := true);
    assert Step(cfg, s, Rx(Lcp(p))).send == {SendLcpResponse};
  }
}
