/**
 The multicast part of a session as the program runs it: a fixed array of groups,
 two references into it for zapping, and counters, all updated in place.
 */
module Multicast {
  import opened Types
  import opened ZappingSpec

  class MulticastSession {
    const cfg: ZapConfig
    const groups: array<Group>
    var joined: Option<nat>
    var leaved: Option<nat>
    var zaps: nat
    var viewStart: Time
    var robustness: nat
    var join: Delays
    var late: Buckets
    var leave: Delays
    var missed: nat
    var traffic: Traffic

    ghost predicate Valid()
      reads this, groups
    {
      Sized(Snapshot()) && cfg.groups > 0
    }

    ghost function Snapshot(): Viewer
      reads this, groups
    {
      Viewer(groups[..], joined, leaved, zaps, viewStart, robustness, join, late, leave, missed, traffic)
    }

    constructor (cfg: ZapConfig, robustness: nat)
      requires cfg.groups > 0
      ensures Valid() && fresh(groups)
      ensures Snapshot() == Viewer(seq(MAX_GROUPS, _ => UNUSED), None, None, 0, NEVER, robustness, Delays(0, 0, 0, 0, 0),
                                   Buckets(0, 0, 0, 0, 0, 0), Delays(0, 0, 0, 0, 0), 0, Traffic(0, 0, 0, 0))
    {
      this.cfg := cfg;
      this.robustness := robustness;
      groups := new Group[MAX_GROUPS](_ => UNUSED);
      joined, leaved, zaps, viewStart := None, None, 0, NEVER;
      join, late, leave := Delays(0, 0, 0, 0, 0), Buckets(0, 0, 0, 0, 0, 0), Delays(0, 0, 0, 0, 0);
      missed, traffic := 0, Traffic(0, 0, 0, 0);
    }

    method JoinFirst(up: bool, start: nat, zaps: nat)
      requires Valid()
      modifies groups, `joined, `leaved, `zaps
      ensures Valid() && Snapshot() == InitialJoin(cfg, old(Snapshot()), up, start, zaps)
    {
      if !up {
        return;
      }
      var index := 0;
      if cfg.groups > 1 {
        index := start % cfg.groups;
      }
      groups[0] := UNUSED.(address := (cfg.base + index * cfg.iter) % WORD, robustness := robustness,
                           state := Joining, send := true);
      this.zaps := 1;
      if cfg.groups > 1 && cfg.interval > 0 {
        joined := Some(0);
        leaved := Some(1);
        groups[1] := UNUSED;
        if cfg.zapCount != 0 && cfg.viewDuration != 0 {
          this.zaps := zaps % cfg.zapCount % 256;
        }
      }
    }

    // Records the delay of the last join; tells whether it had a verdict.
    method JudgeJoin(j: nat) returns (judged: bool)
      requires Valid() && j < groups.Length
      modifies groups, `join, `late, `missed
      ensures Valid() && (Snapshot(), judged) == Judge(cfg, old(Snapshot()), j)
    {
      hide Delay, Classify;
      var g := groups[j];
      if g.firstRx.sec != 0 {
        if !g.measured {
          groups[j] := g.(measured := true);
          var delay := Delay(g.joinTx, g.firstRx);
          var min, max := join.min, join.max;
          if delay > max {
            max := delay;
          }
          if min != 0 {
            if delay < min {
              min := delay;
            }
          } else {
            min := delay;
          }
          var sum, count := (join.sum + delay) % LONG, (join.count + 1) % WORD;
          join := Delays(sum, count, min, max, if count == 0 then join.avg else sum / count);
          late := Classify(cfg, late, delay);
        }
        judged := true;
      } else if cfg.wait {
        judged := false;
      } else {
        groups[j] := g.(measured := true);
        missed := missed + 1;
        judged := true;
      }
    }

    method SwitchGroup(j: nat, l: nat, on: bool)
      requires Valid() && j < groups.Length && l < groups.Length
      modifies groups, `joined, `leaved, `leave
      ensures Valid() && Snapshot() == Switch(cfg, old(Snapshot()), j, l, on)
    {
      hide NextGroup, LeaveDelay;
      var next := NextGroup(cfg, groups[j].address);
      groups[j] := groups[j].(state := Leaving, robustness := robustness, send := true, leaveTx := NEVER, lastRx := NEVER);
      leave := LeaveDelay(leave, groups[l]);
      if on {
        groups[l] := UNUSED.(address := next, state := Joining, robustness := robustness, send := true);
        leaved := Some(j);
        joined := Some(l);
      } else {
        groups[l] := groups[l].(lastRx := groups[l].lastRx.(sec := 0), leaveTx := groups[l].leaveTx.(sec := 0));
      }
    }

    // The zapping timer.
    method ZapTick(up: bool, on: bool, now: Time)
      requires Valid()
      modifies this, groups
      ensures Valid() && Snapshot() == Zap(cfg, old(Snapshot()), up, on, now)
    {
      hide Judge, Switch, TimeSub;
      if !up || joined.None? || leaved.None? {
        return;
      }
      if viewStart.sec != 0 {
        if TimeSub(now, viewStart).sec < cfg.viewDuration {
          return;
        }
        viewStart := viewStart.(sec := 0);
        zaps := 0;
      }
      var j, l := joined.value, leaved.value;
      var judged := JudgeJoin(j);
      if !judged || (!on && !Wanted(groups[j].state)) {
        return;
      }
      SwitchGroup(j, l, on);
      zaps := (zaps + 1) % 256;
      if cfg.zapCount != 0 && cfg.viewDuration != 0 && zaps >= cfg.zapCount {
        viewStart := now;
      }
    }

    // The IGMP robustness timer.
    method RetryTick(up: bool)
      requires Valid()
      modifies groups
      ensures Valid() && Snapshot() == IgmpTimeout(old(Snapshot()), up)
    {
      if !up {
        return;
      }
      for i := 0 to groups.Length
        invariant Valid()
        invariant forall k :: 0 <= k < i ==> groups[k] == Retried(old(groups[..])[k])
        invariant forall k :: i <= k < groups.Length ==> groups[k] == old(groups[..])[k]
      {
        var g := groups[i];
        if g.state.Joining? {
          groups[i] := if g.robustness != 0 then g.(send := true) else g.(state := Active);
        } else if g.state.Leaving? {
          groups[i] := if g.robustness != 0 then g.(send := true) else g.(state := Off);
        }
      }
    }

    // A membership query for one group, or for all when the address is zero.
    method RxQuery(address: nat, robustness: nat)
      requires Valid()
      modifies groups, `robustness
      ensures Valid() && Snapshot() == Query(old(Snapshot()), address, robustness)
    {
      if robustness != 0 {
        this.robustness := robustness;
      }
      for i := 0 to groups.Length
        invariant Valid() && this.robustness == Query(old(Snapshot()), address, robustness).robustness
        invariant forall k :: 0 <= k < i ==> groups[k] == Query(old(Snapshot()), address, robustness).groups[k]
        invariant forall k :: i <= k < groups.Length ==> groups[k] == old(groups[..])[k]
      {
        if groups[i].state.Active? && (address == 0 || groups[i].address == address) {
          groups[i] := groups[i].(send := true);
        }
      }
    }

    // Sends one IGMP report.
    method SendReport(version: Version, combined: bool, now: Time)
      requires Valid()
      modifies groups
      ensures Valid()
      ensures Snapshot() == old(Snapshot()).(groups := Report(old(groups[..]), 0, version, combined, false, false, now))
    {
      var isJoin, isLeave := false, false;
      ghost var all := Report(groups[..], 0, version, combined, false, false, now);
      var i := 0;
      while i < groups.Length
        invariant Valid() && 0 <= i <= groups.Length
        invariant Report(groups[..], i, version, combined, isJoin, isLeave, now) == all
      {
        hide Reported, Settled;
        var g := groups[i];
        var leaving := g.state.Leaving?;
        if g.send && !g.state.Off? && (combined || !(if leaving then isJoin else isLeave)) {
          if leaving {
            isLeave := isLeave || !isJoin;
          } else {
            isJoin := isJoin || !isLeave;
          }
          match version
          case V3 =>
            groups[i] := Settled(Reported(g, now));
          case V2 =>
            groups[i] := Reported(g, now);
            return;
          case V1 =>
            groups[i] := if leaving
              then g.(send := false, state := Off, robustness := if g.robustness > 0 then g.robustness - 1 else 0)
              else Reported(g, now);
            return;
        }
        i := i + 1;
      }
    }

    // A multicast packet.
    method RxMulticast(dst: nat, now: Time, seqNo: Option<nat>)
      requires Valid()
      modifies this, groups
      ensures Valid() && Snapshot() == RxMc(old(Snapshot()), MAX_GROUPS, dst, now, seqNo)
    {
      for i := 0 to MAX_GROUPS
        invariant Valid() && Snapshot() == RxMc(old(Snapshot()), i, dst, now, seqNo)
      {
        RxSlot(i, dst, now, seqNo);
      }
    }

    method RxSlot(i: nat, dst: nat, now: Time, seqNo: Option<nat>)
      requires Valid() && i < MAX_GROUPS
      modifies groups, `traffic
      ensures Valid() && Snapshot() == RxGroup(old(Snapshot()), i, dst, now, seqNo)
    {
      var g := groups[i];
      if g.address != dst {
        return;
      }
      var h := g.(packets := (g.packets + 1) % LONG, lastRx := now);
      if Wanted(g.state) {
        if g.firstRx.sec == 0 {
          h := h.(firstRx := now);
          if seqNo.Some? {
            traffic := traffic.(lastSeq := seqNo.value);
          }
        } else if seqNo.Some? {
          var lost := 0;
          if (traffic.lastSeq + 1) % LONG < seqNo.value {
            lost := seqNo.value - (traffic.lastSeq + 1) % LONG;
          }
          h := h.(loss := (g.loss + lost) % LONG);
          traffic := traffic.(lastSeq := seqNo.value, loss := (traffic.loss + lost) % WORD,
                              interfaceLoss := (traffic.interfaceLoss + lost) % LONG);
        }
        groups[i] := h;
      } else {
        groups[i] := h;
        if joined.Some? && leaved == Some(i) && groups[joined.value].firstRx.sec != 0 {
          traffic := traffic.(stale := traffic.stale + 1);
        }
      }
    }

    // Part of the session reset on reconnect.
    method ResetForReconnect()
      requires Valid()
      modifies this
      ensures Valid() && Snapshot() == Reset(old(Snapshot()))
    {
      joined, leaved, zaps, viewStart := None, None, 0, NEVER;
      join := join.(min := 0, avg := 0, max := 0);
      leave := leave.(min := 0, avg := 0, max := 0);
      missed := 0;
      traffic := traffic.(stale := 0, loss := 0);
    }
  }
}
