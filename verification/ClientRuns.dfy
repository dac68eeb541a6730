/**
 What every run of the client keeps. A run is any sequence of received packets,
 transmissions, timers and commands. A monitor watches the run from outside and
 records what was heard since the last accepted PADS.
 */
module ClientRuns {
  import opened Types
  import opened ClientSpec
  import opened Skeleton

  datatype Verdict = Unheard | Agreed | Refused

  datatype Monitor = Monitor(
    acked: bool,           // a Conf-Ack for our Configure-Request was heard
    accepted: bool,        // a peer Configure-Request was answered with Conf-Ack
    verdict: Verdict,      // answer to the last peer Configure-Request that was not rejected
    nakAfterAck: bool,     // a Configure-Request was answered with Conf-Nak after an earlier Conf-Ack
    opens: nat,            // how often LCP opened, which also starts the keepalive timer
    authStarts: nat,       // how often the authentication phase was entered
    openVerdict: Verdict,  // the verdict when LCP opened
    openedWith: nat,       // the authentication protocol when LCP opened
    authOk: bool)          // PAP Ack or CHAP Success heard in the authentication phase

  const FRESH := Monitor(false, false, Unheard, false, 0, 0, Unheard, 0, false)

  predicate HearsConfAck(s: Session, e: Event) {
    Listening(s.state) && e.Rx? && e.packet.Lcp? && e.packet.lcp.code == CONF_ACK
  }

  predicate HearsConfRequest(s: Session, e: Event) {
    Listening(s.state) && e.Rx? && e.packet.Lcp? && e.packet.lcp.code == CONF_REQUEST
  }

  predicate IsAuthSuccess(e: Event) {
    e.Rx? && ((e.packet.Pap? && e.packet.papCode == PAP_ACK)
              || (e.packet.Chap? && e.packet.chapCode == CHAP_SUCCESS))
  }

  predicate IsProtReject(e: Event) {
    e.Rx? && e.packet.Lcp? && e.packet.lcp.code == PROT_REJECT
  }

  function NewVerdict(cfg: Config, v: Verdict, s: Session, e: Event): Verdict {
    if !HearsConfRequest(s, e) || e.packet.lcp.unknownOptions then v
    else if NaksAuth(cfg, e.packet.lcp) then Refused
    else Agreed
  }

  function Record(m: Monitor, before: Control, after: Control, acked: bool, accepted: bool, verdict: Verdict,
                  authOk: bool): Monitor
  {
    if before.state.PppoeRequest? && after.state.PppLink? then FRESH else
    var opening := !before.lcp.Opened? && after.lcp.Opened?;
    m.(acked := m.acked || acked,
       accepted := m.accepted || accepted,
       verdict := verdict,
       nakAfterAck := m.nakAfterAck || (m.accepted && verdict.Refused?),
       opens := m.opens + (if opening then 1 else 0),
       authStarts := m.authStarts + (if !before.state.PppAuth? && after.state.PppAuth? then 1 else 0),
       openVerdict := if opening then verdict else m.openVerdict,
       openedWith := if opening then after.auth else m.openedWith,
       authOk := m.authOk || authOk)
  }

  // What the monitor makes of one event.
  function Observe(cfg: Config, m: Monitor, s: Session, e: Event, t: Session): Monitor {
    Record(m, View(s), View(t),
           HearsConfAck(s, e),
           HearsConfRequest(s, e) && AcceptsLcp(cfg, e.packet.lcp),
           NewVerdict(cfg, m.verdict, s, e),
           s.state.PppAuth? && IsAuthSuccess(e))
  }

  predicate Proper(e: Event) {
    e.Rx? ==> Decoded(e.packet)
  }

  ghost predicate AllProper(es: seq<Event>) {
    forall i :: 0 <= i < |es| ==> Proper(es[i])
  }

  ghost function Run(cfg: Config, s: Session, m: Monitor, es: seq<Event>): (Session, Monitor)
    requires AllProper(es)
  {
    if es == [] then (s, m) else
    var (t, n) := Run(cfg, s, m, es[..|es| - 1]);
    var e := es[|es| - 1];
    var u := Step(cfg, t, e);
    (u, Observe(cfg, n, t, e, u))
  }

  // A session before its first start.
  predicate Initial(s: Session) {
    && (s.state.Idle? || s.state.Terminated?)
    && s.lcp.state.Closed?
    && (s.ipcp.state.Disabled? || s.ipcp.state.Closed?)
    && (s.ip6cp.state.Disabled? || s.ip6cp.state.Closed?)
    && s.auth == 0
  }

  // ---- The same on the skeleton

  function WatchVerdict(v: Verdict, i: Stimulus): Verdict {
    match i
    case PeerAgreed(_) => Agreed
    case PeerRefused(_) => Refused
    case _ => v
  }

  function Watch(m: Monitor, c: Control, i: Stimulus, d: Control): Monitor {
    Record(m, c, d, i.OwnAgreed?, i.PeerAgreed?, WatchVerdict(m.verdict, i), i.AuthPassed?)
  }

  lemma Watched(cfg: Config, m: Monitor, s: Session, e: Event, t: Session)
    ensures Observe(cfg, m, s, e, t) == Watch(m, View(s), StimulusOf(cfg, s, e), View(t))
  {
    hide NaksAuth, NegotiatedAuth, OnConfAck, OnConfRequest, HostUniqMatches, AcceptsPads, Served, Record, View;
  }

  // ---- LCP

  // State of a control protocol, from what was heard since it was started.
  function Heard(accepted: bool, acked: bool): PppState {
    if accepted && acked then Opened
    else if accepted then PeerAck
    else if acked then LocalAck
    else Init
  }

  predicate Negotiating(p: PppState) {
    p.Init? || p.LocalAck? || p.PeerAck?
  }

  // Which LCP states go with which phase.
  predicate PhaseInv(c: Control) {
    && (Rank(c.state) < Rank(PppLink) || Rank(PppTerminating) < Rank(c.state) ==> c.lcp.Closed?)
    && (c.state.PppLink? ==> Negotiating(c.lcp))
    && (c.state.PppAuth? || c.state.PppNetwork? ==> c.lcp.Opened?)
    && (c.state.Established? ==> Negotiating(c.lcp) || c.lcp.Opened? || c.lcp.Closed?)
    && (c.state.PppTerminating? ==> c.lcp.Terminate?)
  }

  predicate HeardInv(c: Control, m: Monitor) {
    && (Negotiating(c.lcp) || c.lcp.Opened? ==> c.lcp == Heard(m.accepted, m.acked))
    && (Negotiating(c.lcp) ==> m.opens == 0)
    && (c.lcp.Opened? ==> m.opens == 1)
    && m.authStarts <= m.opens <= 1
    && (m.opens == 1 ==> m.accepted && m.acked)
  }

  predicate LcpInv(c: Control, m: Monitor) {
    PhaseInv(c) && HeardInv(c, m)
  }

  lemma PhaseInvStep(cfg: Config, c: Control, i: Stimulus)
    requires PhaseInv(c) && Enabled(cfg, c, i)
    ensures PhaseInv(Advance(cfg, c, i))
  {
  }

  // LCP moves only while it is negotiating, when it is started and when the link ends.
  lemma LcpMoves(cfg: Config, c: Control, i: Stimulus)
    requires PhaseInv(c) && Enabled(cfg, c, i)
    ensures var d := Advance(cfg, c, i);
      d.lcp == (match i
                case LinkUp => Init
                case PeerAgreed(_) => OnConfRequest(c.lcp)
                case OwnAgreed => OnConfAck(c.lcp)
                case _ => d.lcp)
      && (d.lcp == c.lcp || i.LinkUp? || i.PeerAgreed? || i.OwnAgreed? || d.lcp.Closed? || d.lcp.Terminate?)
      && (c.state.PppoeRequest? && d.state.PppLink? <==> i.LinkUp?)
      && (!c.state.PppAuth? && d.state.PppAuth? ==> !c.lcp.Opened? && d.lcp.Opened?)
      && (c.lcp.Opened? && d.lcp.Opened? ==> d.state.PppAuth? ==> c.state.PppAuth?)
  {
  }

  lemma HeardInvStep(cfg: Config, c: Control, m: Monitor, i: Stimulus)
    requires LcpInv(c, m) && Enabled(cfg, c, i)
    ensures var d := Advance(cfg, c, i); HeardInv(d, Watch(m, c, i, d))
  {
    hide Advance, Enabled, PhaseInv;
    LcpMoves(cfg, c, i);
  }

  lemma LcpInvStep(cfg: Config, c: Control, m: Monitor, i: Stimulus)
    requires LcpInv(c, m) && Enabled(cfg, c, i)
    ensures var d := Advance(cfg, c, i); LcpInv(d, Watch(m, c, i, d))
  {
    hide Advance, Enabled, PhaseInv, HeardInv, Watch;
    PhaseInvStep(cfg, c, i);
    HeardInvStep(cfg, c, m, i);
  }

  lemma LcpInvRun(cfg: Config, s: Session, es: seq<Event>)
    requires ValidConfig(cfg) && Initial(s) && AllProper(es)
    ensures var (t, m) := Run(cfg, s, FRESH, es); LcpInv(View(t), m)
  {
    if es != [] {
      hide Step, Observe, StimulusOf, Watch, Advance, Enabled, View, LcpInv;
      var n := |es| - 1;
      LcpInvRun(cfg, s, es[..n]);
      var (t, m) := Run(cfg, s, FRESH, es[..n]);
      StepOf(cfg, t, m, es[n]);
      LcpInvStep(cfg, View(t), m, StimulusOf(cfg, t, es[n]));
    }
  }

  // One step of a run, seen on the skeleton.
  lemma StepOf(cfg: Config, s: Session, m: Monitor, e: Event)
    requires ValidConfig(cfg) && Proper(e)
    ensures var t := Step(cfg, s, e);
      var i := StimulusOf(cfg, s, e);
      Enabled(cfg, View(s), i)
      && View(t) == Advance(cfg, View(s), i)
      && Observe(cfg, m, s, e, t) == Watch(m, View(s), i, View(t))
  {
    hide Step, StimulusOf, Enabled, Advance, View, Observe, Watch;
    Project(cfg, s, e);
    StimulusEnabled(cfg, s, e);
    Watched(cfg, m, s, e, Step(cfg, s, e));
  }

  // LCP opens at most once per accepted PADS, only after a Conf-Ack was heard and
  // a peer Configure-Request accepted, in either order; until the link ends its
  // state is determined by which of the two was heard.
  lemma LcpOpensOnce(cfg: Config, s: Session, es: seq<Event>)
    requires ValidConfig(cfg) && Initial(s) && AllProper(es)
    ensures var (t, m) := Run(cfg, s, FRESH, es);
      && m.opens <= 1
      && m.authStarts <= m.opens
      && (m.opens == 1 ==> m.accepted && m.acked)
      && (t.state.PppLink? || t.state.PppAuth? || t.state.PppNetwork? ==> t.lcp.state == Heard(m.accepted, m.acked))
  {
    LcpInvRun(cfg, s, es);
  }

  // ---- Safety of the established phase

  // A Protocol-Reject that leaves no NCP to wait for, before or after the network phase.
  predicate PrematureReject(s: Session, e: Event) {
    && IsProtReject(e)
    && (s.state.PppLink? || s.state.PppAuth? || s.state.Terminating?)
    && (NcpSuccess(s.ipcp.state) || e.packet.lcp.protocol == PROTOCOL_IPCP)
    && (NcpSuccess(s.ip6cp.state) || e.packet.lcp.protocol == PROTOCOL_IP6CP)
  }

  predicate Premature(c: Control, i: Stimulus) {
    && i.ProtocolRejected?
    && (c.state.PppLink? || c.state.PppAuth? || c.state.Terminating?)
    && (NcpSuccess(c.ipcp) || i.protocol == PROTOCOL_IPCP)
    && (NcpSuccess(c.ip6cp) || i.protocol == PROTOCOL_IP6CP)
  }

  lemma PrematureStimulus(cfg: Config, s: Session, e: Event)
    ensures PrematureReject(s, e) <==> Premature(View(s), StimulusOf(cfg, s, e))
  {
    hide NaksAuth, NegotiatedAuth, OnConfAck, OnConfRequest, HostUniqMatches, AcceptsPads, Served;
  }

  predicate AtRest(p: PppState) {
    p.Disabled? || p.Closed? || p.Rejected?
  }

  // NCPs negotiate only in the network phase and later, and then LCP is open.
  predicate NcpInv(c: Control) {
    && (!c.state.PppNetwork? && !c.state.Established? ==> AtRest(c.ipcp) && AtRest(c.ip6cp))
    && (c.state.Established? ==> c.lcp.Opened?)
  }

  predicate SafeInv(c: Control, m: Monitor) {
    && (Negotiating(c.lcp) ==> !m.authOk)
    && (c.state.PppAuth? ==> IsAuth(m.openedWith) && !m.authOk)
    && (c.state.PppNetwork? || c.state.Established? ==> IsAuth(m.openedWith) ==> m.authOk)
  }

  lemma NcpInvStep(cfg: Config, c: Control, i: Stimulus)
    requires PhaseInv(c) && NcpInv(c) && Enabled(cfg, c, i) && !Premature(c, i)
    ensures NcpInv(Advance(cfg, c, i))
  {
  }

  lemma SafeInvStep(cfg: Config, c: Control, m: Monitor, i: Stimulus)
    requires PhaseInv(c) && NcpInv(c) && SafeInv(c, m) && Enabled(cfg, c, i) && !Premature(c, i)
    ensures var d := Advance(cfg, c, i); SafeInv(d, Watch(m, c, i, d))
  {
    SafeMoves(cfg, c, i);
    hide Advance, PhaseInv, NcpInv, Enabled, Premature, IsAuth, WatchVerdict;
  }

  // How the link opens and where the authentication and network phases come from.
  lemma SafeMoves(cfg: Config, c: Control, i: Stimulus)
    requires PhaseInv(c) && NcpInv(c) && Enabled(cfg, c, i) && !Premature(c, i)
    ensures var d := Advance(cfg, c, i);
      var anew := c.state.PppoeRequest? && d.state.PppLink?;
      var opening := !c.lcp.Opened? && d.lcp.Opened?;
      && (Negotiating(d.lcp) && !anew ==> Negotiating(c.lcp) && !i.AuthPassed?)
      && (d.state.PppAuth? ==>
            !anew && !i.AuthPassed? && if opening then IsAuth(d.auth) && Negotiating(c.lcp) else c.state.PppAuth?)
      && (d.state.PppNetwork? || d.state.Established? ==>
            !anew && (i.AuthPassed? || if opening then !IsAuth(d.auth) else c.state.PppNetwork? || c.state.Established?))
  {
  }

  ghost predicate NoPremature(cfg: Config, s: Session, es: seq<Event>)
    requires AllProper(es)
  {
    forall k :: 0 <= k < |es| ==> !PrematureReject(Run(cfg, s, FRESH, es[..k]).0, es[k])
  }

  lemma SafeRun(cfg: Config, s: Session, es: seq<Event>)
    requires ValidConfig(cfg) && Initial(s) && AllProper(es) && NoPremature(cfg, s, es)
    ensures var (t, m) := Run(cfg, s, FRESH, es); NcpInv(View(t)) && SafeInv(View(t), m)
  {
    if es != [] {
      var n := |es| - 1;
      hide Step, Observe, StimulusOf, Watch, Advance, Enabled, View, PhaseInv, HeardInv, NcpInv, SafeInv, PrematureReject,
           Premature;
      NoPrematurePrefix(cfg, s, es, n);
      assert !PrematureReject(Run(cfg, s, FRESH, es[..n]).0, es[n]);
      SafeRun(cfg, s, es[..n]);
      LcpInvRun(cfg, s, es[..n]);
      var (t, m) := Run(cfg, s, FRESH, es[..n]);
      StepOf(cfg, t, m, es[n]);
      PrematureStimulus(cfg, t, es[n]);
      NcpInvStep(cfg, View(t), StimulusOf(cfg, t, es[n]));
      SafeInvStep(cfg, View(t), m, StimulusOf(cfg, t, es[n]));
    }
  }

  lemma NoPrematurePrefix(cfg: Config, s: Session, es: seq<Event>, n: nat)
    requires AllProper(es) && NoPremature(cfg, s, es) && n <= |es|
    ensures NoPremature(cfg, s, es[..n])
  {
    hide Run, PrematureReject;
    forall k | 0 <= k < n ensures !PrematureReject(Run(cfg, s, FRESH, es[..n][..k]).0, es[..n][k]) {
      assert es[..n][..k] == es[..k] && es[..n][k] == es[k];
    }
  }

  // Established means: LCP is open and, if it opened with PAP or CHAP, the peer
  // has confirmed the credentials since the last PADS.
  predicate Safe(s: Session, m: Monitor) {
    s.state.Established? ==>
      s.lcp.state.Opened? && m.accepted && m.acked && (IsAuth(m.openedWith) ==> m.authOk)
  }

  lemma PrematureIsUnsafe(cfg: Config, c: Control, m: Monitor, i: Stimulus)
    requires PhaseInv(c) && SafeInv(c, m) && Enabled(cfg, c, i) && Premature(c, i)
    ensures var d := Advance(cfg, c, i);
      var n := Watch(m, c, i, d);
      d.state.Established? && !(d.lcp.Opened? && (IsAuth(n.openedWith) ==> n.authOk))
  {
  }

  // A run is safe throughout exactly when no Protocol-Reject in it is premature.
  lemma SafeIff(cfg: Config, s: Session, es: seq<Event>)
    requires ValidConfig(cfg) && Initial(s) && AllProper(es)
    ensures (forall k :: 0 <= k <= |es| ==> Safe(Run(cfg, s, FRESH, es[..k]).0, Run(cfg, s, FRESH, es[..k]).1))
       <==> NoPremature(cfg, s, es)
  {
    if NoPremature(cfg, s, es) {
      forall k | 0 <= k <= |es| ensures Safe(Run(cfg, s, FRESH, es[..k]).0, Run(cfg, s, FRESH, es[..k]).1) {
        NoPrematurePrefix(cfg, s, es, k);
        SafeRun(cfg, s, es[..k]);
        LcpInvRun(cfg, s, es[..k]);
      }
    } else {
      var k := FirstPremature(cfg, s, es);
      SafeRun(cfg, s, es[..k]);
      LcpInvRun(cfg, s, es[..k]);
      var (t, m) := Run(cfg, s, FRESH, es[..k]);
      StepOf(cfg, t, m, es[k]);
      PrematureStimulus(cfg, t, es[k]);
      PrematureIsUnsafe(cfg, View(t), m, StimulusOf(cfg, t, es[k]));
      RunExtends(cfg, s, es, k);
    }
  }

  // For example: with IPv6 disabled, rejecting IPCP establishes a session whose
  // link is not open, whose credentials are not checked, or that is terminating.
  lemma RejectEstablishesEarly(cfg: Config, s: Session, id: Byte)
    requires s.state.PppLink? || s.state.PppAuth? || s.state.Terminating?
    requires s.ip6cp.state.Disabled?
    ensures var e := Rx(Lcp(LcpPacket(PROT_REJECT, id, protocol := PROTOCOL_IPCP)));
      Proper(e) && PrematureReject(s, e) && Step(cfg, s, e).state.Established?
  {
  }

  lemma RunExtends(cfg: Config, s: Session, es: seq<Event>, k: nat)
    requires AllProper(es) && k < |es|
    ensures var (t, m) := Run(cfg, s, FRESH, es[..k]);
      var u := Step(cfg, t, es[k]);
      Run(cfg, s, FRESH, es[..k + 1]) == (u, Observe(cfg, m, t, es[k], u))
  {
    hide Step, Observe;
    assert es[..k + 1][..k] == es[..k];
  }

  lemma FirstPremature(cfg: Config, s: Session, es: seq<Event>) returns (k: nat)
    requires AllProper(es) && !NoPremature(cfg, s, es)
    ensures k < |es| && PrematureReject(Run(cfg, s, FRESH, es[..k]).0, es[k])
    ensures NoPremature(cfg, s, es[..k])
  {
    hide Run, PrematureReject;
    k :| 0 <= k < |es| && PrematureReject(Run(cfg, s, FRESH, es[..k]).0, es[k]);
    if !NoPremature(cfg, s, es[..k]) {
      var j := FirstPremature(cfg, s, es[..k]);
      assert es[..k][..j] == es[..j] && es[..k][j] == es[j];
      k := j;
    }
  }

  // ---- Entry into the established phase

  ghost predicate NoProtReject(es: seq<Event>) {
    forall i :: 0 <= i < |es| ==> !IsProtReject(es[i])
  }

  predicate Unrejected(c: Control) {
    !c.ipcp.Rejected? && !c.ip6cp.Rejected?
  }

  lemma UnrejectedStep(cfg: Config, c: Control, i: Stimulus)
    requires Unrejected(c) && Enabled(cfg, c, i) && !i.ProtocolRejected?
    ensures Unrejected(Advance(cfg, c, i))
  {
  }

  lemma ProtRejectStimulus(cfg: Config, s: Session, e: Event)
    ensures StimulusOf(cfg, s, e).ProtocolRejected? ==> IsProtReject(e)
  {
    hide NaksAuth, NegotiatedAuth, OnConfAck, OnConfRequest, HostUniqMatches, AcceptsPads, Served;
  }

  lemma UnrejectedRun(cfg: Config, s: Session, es: seq<Event>)
    requires ValidConfig(cfg) && Initial(s) && AllProper(es) && NoProtReject(es)
    ensures Unrejected(View(Run(cfg, s, FRESH, es).0))
  {
    if es != [] {
      hide Step, Observe, StimulusOf, Watch, Advance, Enabled, View, Unrejected;
      var n := |es| - 1;
      UnrejectedRun(cfg, s, es[..n]);
      var (t, m) := Run(cfg, s, FRESH, es[..n]);
      StepOf(cfg, t, m, es[n]);
      ProtRejectStimulus(cfg, t, es[n]);
      UnrejectedStep(cfg, View(t), StimulusOf(cfg, t, es[n]));
    }
  }

  lemma EntryStep(cfg: Config, c: Control, i: Stimulus)
    requires PhaseInv(c) && NcpInv(c) && Unrejected(c) && Enabled(cfg, c, i) && !i.ProtocolRejected?
    requires !c.state.Established? && Advance(cfg, c, i).state.Established?
    ensures c.state.PppNetwork?
    ensures var d := Advance(cfg, c, i);
      (d.ipcp.Disabled? || d.ipcp.Opened?) && (d.ip6cp.Disabled? || d.ip6cp.Opened?)
      && ((!c.ipcp.Opened? && d.ipcp.Opened?) || (!c.ip6cp.Opened? && d.ip6cp.Opened?))
  {
  }

  // Without Protocol-Reject the established phase is entered from the network
  // phase, every NCP is then disabled or opened, and the event opened the last one.
  lemma EntersEstablishedComplete(cfg: Config, s: Session, es: seq<Event>, e: Event)
    requires ValidConfig(cfg) && Initial(s) && AllProper(es) && NoProtReject(es) && Proper(e) && !IsProtReject(e)
    ensures var t := Run(cfg, s, FRESH, es).0;
      var u := Step(cfg, t, e);
      !t.state.Established? && u.state.Established? ==>
        && t.state.PppNetwork?
        && (u.ipcp.state.Disabled? || u.ipcp.state.Opened?)
        && (u.ip6cp.state.Disabled? || u.ip6cp.state.Opened?)
        && ((u.ipcp.state.Opened? && !t.ipcp.state.Opened?) || (u.ip6cp.state.Opened? && !t.ip6cp.state.Opened?))
  {
    assert NoPremature(cfg, s, es);
    SafeRun(cfg, s, es);
    LcpInvRun(cfg, s, es);
    UnrejectedRun(cfg, s, es);
    var (t, m) := Run(cfg, s, FRESH, es);
    StepOf(cfg, t, m, e);
    ProtRejectStimulus(cfg, t, e);
    if !t.state.Established? && Step(cfg, t, e).state.Established? {
      EntryStep(cfg, View(t), StimulusOf(cfg, t, e));
    }
  }

  // ---- Termination

  predicate InTermination(state: SessionState) {
    state.PppTerminating? || state.Terminating? || state.Terminated?
  }

  // From the terminating phases the session comes back only by a premature
  // Protocol-Reject while the PADT is pending, or by an explicit restart.
  lemma TerminationLeftIff(cfg: Config, s: Session, es: seq<Event>, e: Event)
    requires ValidConfig(cfg) && Initial(s) && AllProper(es) && Proper(e)
    requires InTermination(Run(cfg, s, FRESH, es).0.state)
    ensures var t := Run(cfg, s, FRESH, es).0;
      !InTermination(Step(cfg, t, e).state)
      <==> PrematureReject(t, e) || (t.state.Terminated? && e.Restart?)
  {
    LcpInvRun(cfg, s, es);
    var (t, m) := Run(cfg, s, FRESH, es);
    StepOf(cfg, t, m, e);
    PrematureStimulus(cfg, t, e);
    RestartStimulus(cfg, t, e);
    TerminationStep(cfg, View(t), StimulusOf(cfg, t, e));
  }

  lemma RestartStimulus(cfg: Config, s: Session, e: Event)
    ensures StimulusOf(cfg, s, e).Restarted? <==> s.state.Terminated? && e.Restart?
  {
    hide NaksAuth, NegotiatedAuth, OnConfAck, OnConfRequest, HostUniqMatches, AcceptsPads, Served;
  }

  lemma TerminationStep(cfg: Config, c: Control, i: Stimulus)
    requires PhaseInv(c) && Enabled(cfg, c, i) && InTermination(c.state)
    ensures !InTermination(Advance(cfg, c, i).state) <==> Premature(c, i) || i.Restarted?
  {
  }

  // Termination is absorbing: packets and timers never lead back to the link,
  // authentication, network or established phase.
  lemma TerminationAbsorbs(cfg: Config, s: Session, es: seq<Event>, more: seq<Event>)
    requires ValidConfig(cfg) && Initial(s) && AllProper(es) && AllProper(more)
    requires InTermination(Run(cfg, s, FRESH, es).0.state)
    requires NoProtReject(more) && forall i :: 0 <= i < |more| ==> !more[i].Restart?
    ensures AllProper(es + more)
    ensures InTermination(Run(cfg, s, FRESH, es + more).0.state)
    decreases |more|
  {
    hide Step, Observe, PrematureReject, InTermination, Initial, AllProper, NoProtReject;
    ProperConcat(es, more);
    if more == [] {
      assert es + more == es;
    } else {
      var n := |more| - 1;
      var before := es + more[..n];
      var e := more[n];
      ProperPrefix(more, n);
      TerminationAbsorbs(cfg, s, es, more[..n]);
      assert es + more == before + [e];
      TerminationLeftIff(cfg, s, before, e);
      RejectsAreProtRejects(Run(cfg, s, FRESH, before).0, e);
      RunSnoc(cfg, s, before, e);
    }
  }

  lemma ProperConcat(es: seq<Event>, more: seq<Event>)
    requires AllProper(es) && AllProper(more)
    ensures AllProper(es + more)
  {
  }

  lemma ProperPrefix(es: seq<Event>, n: nat)
    requires AllProper(es) && NoProtReject(es) && n < |es|
    ensures AllProper(es[..n]) && NoProtReject(es[..n]) && Proper(es[n]) && !IsProtReject(es[n])
  {
  }

  lemma RunSnoc(cfg: Config, s: Session, es: seq<Event>, e: Event)
    requires AllProper(es) && Proper(e)
    ensures AllProper(es + [e])
    ensures Run(cfg, s, FRESH, es + [e]).0 == Step(cfg, Run(cfg, s, FRESH, es).0, e)
  {
    hide Step, Observe;
    var all := es + [e];
    assert all[..|all| - 1] == es;
  }

  lemma RejectsAreProtRejects(s: Session, e: Event)
    ensures PrematureReject(s, e) ==> IsProtReject(e)
  {
  }

  // ---- Configured authentication

  predicate AuthInv(cfg: Config, c: Control, m: Monitor) {
    && (Rank(c.state) < Rank(PppLink) ==> c.auth == 0)
    && (Negotiating(c.lcp) || c.lcp.Opened? ==> c.auth == if m.verdict.Agreed? then cfg.authentication else 0)
    && (m.opens == 1 ==> m.openedWith == if m.openVerdict.Agreed? then cfg.authentication else 0)
    && (m.accepted && !m.nakAfterAck ==> m.verdict.Agreed?)
    && (m.opens == 1 && !m.nakAfterAck ==> m.openVerdict.Agreed?)
  }

  lemma AuthInvStep(cfg: Config, c: Control, m: Monitor, i: Stimulus)
    requires cfg.authentication != 0 && LcpInv(c, m) && AuthInv(cfg, c, m) && Enabled(cfg, c, i)
    ensures var d := Advance(cfg, c, i); AuthInv(cfg, d, Watch(m, c, i, d))
  {
    AuthMoves(cfg, c, i);
    LcpMoves(cfg, c, i);
    hide Advance, Enabled, PhaseInv;
  }

  lemma AuthMoves(cfg: Config, c: Control, i: Stimulus)
    requires cfg.authentication != 0 && PhaseInv(c) && Enabled(cfg, c, i)
    ensures var d := Advance(cfg, c, i);
      && d.auth == (match i
                    case PeerAgreed(_) => cfg.authentication
                    case PeerRefused(_) => 0
                    case Restarted => 0
                    case _ => c.auth)
      && (Rank(d.state) < Rank(PppLink) ==> Rank(c.state) < Rank(PppLink) || i.Restarted?)
      && (i.PeerAgreed? || i.PeerRefused? ==> Rank(PppLink) <= Rank(d.state))
      && (i.LinkUp? ==> c.auth == d.auth)
      && (i.Restarted? ==> d.lcp.Closed?)
      && (d.lcp.Init? || d.lcp.LocalAck? || d.lcp.PeerAck? || d.lcp.Opened? ==>
            i.LinkUp? || Negotiating(c.lcp) || c.lcp.Opened?)
      && (i.LinkUp? ==> Rank(c.state) < Rank(PppLink) && d.lcp.Init?)
  {
  }

  lemma AuthRun(cfg: Config, s: Session, es: seq<Event>)
    requires ValidConfig(cfg) && cfg.authentication != 0 && Initial(s) && AllProper(es)
    ensures var (t, m) := Run(cfg, s, FRESH, es); AuthInv(cfg, View(t), m)
  {
    if es != [] {
      hide Step, Observe, StimulusOf, Watch, Advance, Enabled, View, LcpInv, AuthInv;
      var n := |es| - 1;
      AuthRun(cfg, s, es[..n]);
      LcpInvRun(cfg, s, es[..n]);
      var (t, m) := Run(cfg, s, FRESH, es[..n]);
      StepOf(cfg, t, m, es[n]);
      AuthInvStep(cfg, View(t), m, StimulusOf(cfg, t, es[n]));
    }
  }

  // LCP opens with the configured protocol exactly when the last peer
  // Configure-Request before that was acknowledged, and otherwise with none. So
  // it always does unless a request is refused after one was acknowledged.
  lemma ConfiguredAuthIff(cfg: Config, s: Session, es: seq<Event>)
    requires ValidConfig(cfg) && cfg.authentication != 0 && Initial(s) && AllProper(es)
    ensures var (t, m) := Run(cfg, s, FRESH, es);
      m.opens == 1 ==>
        && (m.openedWith == cfg.authentication <==> m.openVerdict.Agreed?)
        && (!m.openVerdict.Agreed? ==> m.openedWith == 0)
        && (!m.nakAfterAck ==> m.openedWith == cfg.authentication)
  {
    AuthRun(cfg, s, es);
  }

  // Then the network phase is reached only through a success message.
  lemma NetworkNeedsSuccess(cfg: Config, s: Session, es: seq<Event>)
    requires ValidConfig(cfg) && cfg.authentication != 0 && Initial(s) && AllProper(es) && NoPremature(cfg, s, es)
    ensures var (t, m) := Run(cfg, s, FRESH, es);
      (t.state.PppNetwork? || t.state.Established?) && !m.nakAfterAck ==> m.authOk
  {
    AuthRun(cfg, s, es);
    SafeRun(cfg, s, es);
    LcpInvRun(cfg, s, es);
  }

  // Opening LCP enters the authentication phase exactly when a protocol is set.
  lemma OpeningEntersAuthIff(cfg: Config, s: Session, e: Event)
    requires ValidConfig(cfg) && Proper(e)
    requires !s.lcp.state.Opened? && Step(cfg, s, e).lcp.state.Opened?
    ensures var t := Step(cfg, s, e);
      (t.state.PppAuth? || t.state.PppNetwork?) && (t.state.PppAuth? <==> IsAuth(t.auth))
  {
    hide StimulusOf, Step, Observe, Watch;
    StepOf(cfg, s, FRESH, e);
    OpeningStep(cfg, View(s), StimulusOf(cfg, s, e));
  }

  lemma OpeningStep(cfg: Config, c: Control, i: Stimulus)
    requires !c.lcp.Opened? && Advance(cfg, c, i).lcp.Opened?
    ensures var d := Advance(cfg, c, i);
      (d.state.PppAuth? || d.state.PppNetwork?) && (d.state.PppAuth? <==> IsAuth(d.auth))
  {
  }

  // A request without authentication that follows an acknowledged one is refused
  // but still clears the protocol: the network phase is entered unauthenticated.
  lemma NakAfterAckSkipsAuth(cfg: Config, s: Session, id: Byte)
    requires ValidConfig(cfg) && cfg.authentication != 0
    requires s.state.PppLink? && s.lcp.state.Init?
    ensures var es := [Rx(Lcp(LcpPacket(CONF_REQUEST, id, auth := cfg.authentication))),
                       Rx(Lcp(LcpPacket(CONF_REQUEST, id))),
                       Rx(Lcp(LcpPacket(CONF_ACK, id)))];
      AllProper(es)
      && var (t, m) := Run(cfg, s, FRESH, es);
      t.state.PppNetwork? && m.nakAfterAck && !m.authOk
  {
    var e0 := Rx(Lcp(LcpPacket(CONF_REQUEST, id, auth := cfg.authentication)));
    var e1 := Rx(Lcp(LcpPacket(CONF_REQUEST, id)));
    var e2 := Rx(Lcp(LcpPacket(CONF_ACK, id)));
    var es := [e0, e1, e2];
    hide Run, Step, Observe, StimulusOf;
    RunExtends(cfg, s, es, 0);
    RunExtends(cfg, s, es, 1);
    RunExtends(cfg, s, es, 2);
    assert es[..0] == [] && es[..3] == es;
    RunEmpty(cfg, s);
    var (s1, m1) := Run(cfg, s, FRESH, es[..1]);
    var (s2, m2) := Run(cfg, s, FRESH, es[..2]);
    StepOf(cfg, s, FRESH, e0);
    StepOf(cfg, s1, m1, e1);
    StepOf(cfg, s2, m2, e2);
    RequestStimulus(cfg, s, e0.packet.lcp);
    RequestStimulus(cfg, s1, e1.packet.lcp);
    RequestStimulus(cfg, s2, e2.packet.lcp);
  }

  lemma RunEmpty(cfg: Config, s: Session)
    ensures Run(cfg, s, FRESH, []) == (s, FRESH)
  {
  }

  lemma RequestStimulus(cfg: Config, s: Session, p: LcpPacket)
    requires s.state.PppLink? && cfg.authentication != 0 && ValidConfig(cfg) && !p.unknownOptions
    ensures p.code == CONF_ACK ==> StimulusOf(cfg, s, Rx(Lcp(p))) == OwnAgreed
    ensures p.code == CONF_REQUEST && p.auth == cfg.authentication ==>
      StimulusOf(cfg, s, Rx(Lcp(p))) == PeerAgreed(cfg.authentication)
    ensures p.code == CONF_REQUEST && p.auth == 0 ==> StimulusOf(cfg, s, Rx(Lcp(p))) == PeerRefused(0)
  {
  }

  // The authentication phase ends in the network phase on a PAP Ack as well as on
  // a CHAP Success, whichever protocol was negotiated, and on nothing else.
  lemma AuthEndsIff(cfg: Config, s: Session, es: seq<Event>, e: Event)
    requires ValidConfig(cfg) && Initial(s) && AllProper(es) && Proper(e)
    requires Run(cfg, s, FRESH, es).0.state.PppAuth?
    ensures Step(cfg, Run(cfg, s, FRESH, es).0, e).state.PppNetwork? <==> IsAuthSuccess(e)
  {
    hide StimulusOf, Step, Run, Observe, Watch;
    LcpInvRun(cfg, s, es);
    var (t, m) := Run(cfg, s, FRESH, es);
    StepOf(cfg, t, m, e);
    SuccessStimulus(cfg, t, e);
    SuccessStep(cfg, View(t), StimulusOf(cfg, t, e));
  }

  lemma SuccessStimulus(cfg: Config, s: Session, e: Event)
    requires s.state.PppAuth?
    ensures StimulusOf(cfg, s, e).AuthPassed? <==> IsAuthSuccess(e)
  {
    hide NaksAuth, NegotiatedAuth, OnConfAck, OnConfRequest, HostUniqMatches, AcceptsPads, Served;
  }

  lemma SuccessStep(cfg: Config, c: Control, i: Stimulus)
    requires c.state.PppAuth? && c.lcp.Opened? && Enabled(cfg, c, i)
    ensures Advance(cfg, c, i).state.PppNetwork? <==> i.AuthPassed?
  {
  }

  // For example: PAP was negotiated, and a CHAP Success ends the phase.
  lemma ChapEndsPap(cfg: Config, s: Session, id: Byte, len: nat)
    requires s.state.PppAuth? && s.auth == PROTOCOL_PAP
    ensures var t := Step(cfg, s, Rx(Chap(CHAP_SUCCESS, id, len, false)));
      t.state.PppNetwork? && t.auth == PROTOCOL_PAP
  {
  }
}
