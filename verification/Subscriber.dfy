/**
 A session as the rest of the program sees it: events come in, frames go out. The
 object carries the record of what was heard since the last PADS, so that whoever
 holds it can rely on what every run of the client keeps.
 */
module Subscriber {
  import opened Types
  import opened ClientSpec
  import opened Skeleton
  import opened ClientRuns
  import opened Client

  class Subscription {
    const client: PppoeClient
    ghost var heard: Monitor
    ghost var rejected: bool  // a premature Protocol-Reject was received

    ghost predicate Valid()
      reads this, client
    {
      && ValidConfig(client.cfg)
      && LcpInv(View(client.Snapshot()), heard)
      && (!rejected ==> NcpInv(View(client.Snapshot())) && SafeInv(View(client.Snapshot()), heard))
    }

    constructor (cfg: Config, s: Session)
      requires ValidConfig(cfg) && Initial(s)
      ensures Valid() && fresh(client) && client.cfg == cfg && client.Snapshot() == s && heard == FRESH && !rejected
    {
      client := new PppoeClient(cfg, s);
      heard, rejected := FRESH, false;
    }

    // Everything that can happen to a session. The client makes the step the
    // specification says, the record is kept, and so is the invariant.
    method Handle(e: Event) returns (frames: seq<Packet>)
      requires Valid() && Proper(e)
      modifies this, client
      ensures Valid()
      ensures client.Snapshot() == Step(client.cfg, old(client.Snapshot()), e)
      ensures heard == Observe(client.cfg, old(heard), old(client.Snapshot()), e, client.Snapshot())
      ensures rejected == (old(rejected) || PrematureReject(old(client.Snapshot()), e))
      ensures frames == if e.Tx? then Frame(client.cfg, old(client.Snapshot())) else []
    {
      hide Step, Observe, View, LcpInv, NcpInv, SafeInv, PrematureReject, Proper, Frame;
      ghost var s := client.Snapshot();
      frames := Dispatch(e);
      ghost var t := client.Snapshot();
      HandleKeeps(client.cfg, s, heard, rejected, e);
      rejected := rejected || PrematureReject(s, e);
      heard := Observe(client.cfg, heard, s, e, t);
    }

    method Dispatch(e: Event) returns (frames: seq<Packet>)
      requires Proper(e)
      modifies client
      ensures client.Snapshot() == Step(client.cfg, old(client.Snapshot()), e)
      ensures frames == if e.Tx? then Frame(client.cfg, old(client.Snapshot())) else []
    {
      hide Receive, Transmit, Frame, OnPadrTimeout, OnLcpTimeout, OnLcpEcho, OnAuthTimeout, OnIpcpTimeout, OnIp6cpTimeout,
           ClearSession, OpenIpcpNow, OpenIp6cpNow, CloseIpcpNow, CloseIp6cpNow, StartSession, RestartSession;
      frames := [];
      match e {
        case Rx(p) => client.Receive(p);
        case Tx => frames := client.Transmit();
        case PadiTimeout => client.PadiTimeout();
        case PadrTimeout => client.PadrTimeout();
        case LcpTimeout => client.LcpTimeout();
        case LcpStartDelay => client.LcpStartDelay();
        case LcpEcho => client.LcpEcho();
        case PapTimeout => client.AuthTimeout(SendPap);
        case ChapTimeout => client.AuthTimeout(SendChap);
        case IpcpTimeout => client.IpcpTimeout();
        case Ip6cpTimeout => client.Ip6cpTimeout();
        case SessionTimeout => client.SessionTimeout();
        case Clear => client.Clear();
        case OpenIpcp => client.OpenNcp(true);
        case OpenIp6cp => client.OpenNcp(false);
        case CloseIpcp => client.CloseNcp(true);
        case CloseIp6cp => client.CloseNcp(false);
        case Start => client.Start();
        case Restart => client.Restart();
      }
    }

    // What the holder of the object can rely on at any time.
    lemma Reliable()
      requires Valid()
      ensures heard.opens <= 1 && heard.authStarts <= heard.opens
      ensures heard.opens == 1 ==> heard.accepted && heard.acked
      ensures client.state.PppAuth? || client.state.PppNetwork? ==> client.lcp.state.Opened? && heard.opens == 1
      ensures client.state.PppTerminating? ==> client.lcp.state.Terminate?
      ensures !rejected ==> Safe(client.Snapshot(), heard)
    {
    }
  }

  lemma HandleKeeps(cfg: Config, s: Session, m: Monitor, rejected: bool, e: Event)
    requires ValidConfig(cfg) && Proper(e) && LcpInv(View(s), m)
    requires !rejected ==> NcpInv(View(s)) && SafeInv(View(s), m)
    ensures var t := Step(cfg, s, e);
      var n := Observe(cfg, m, s, e, t);
      && LcpInv(View(t), n)
      && (!rejected && !PrematureReject(s, e) ==> NcpInv(View(t)) && SafeInv(View(t), n))
  {
    hide Step, Observe, StimulusOf, Watch, Advance, Enabled, View, HeardInv, PhaseInv, NcpInv, SafeInv, PrematureReject, Premature;
    var i := StimulusOf(cfg, s, e);
    StepOf(cfg, s, m, e);
    LcpInvStep(cfg, View(s), m, i);
    PrematureStimulus(cfg, s, e);
    if !rejected && !PrematureReject(s, e) {
      NcpInvStep(cfg, View(s), i);
      SafeInvStep(cfg, View(s), m, i);
    }
  }
}
