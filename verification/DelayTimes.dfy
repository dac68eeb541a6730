/**
 The times behind the delays: over every run, a join delay runs from the first report
 of the join to the first packet of the group, and a leave delay from the first report
 of the leave to the last packet.
 */
module DelayTimes {
  import opened Types
  import opened ZappingSpec
  import opened ZappingRuns
  import opened Reports
  import opened JoinDelays

  datatype Mark = JoinTold | FirstHeard | LeaveTold | LastHeard

  function ClockOf(g: Group, m: Mark): Time {
    match m
    case JoinTold => g.joinTx
    case FirstHeard => g.firstRx
    case LeaveTold => g.leaveTx
    case LastHeard => g.lastRx
  }

  // ---- What happened to a slot, and when

  // The slot starts anew as far as this time is concerned.
  ghost predicate Renews(cfg: ZapConfig, v: Viewer, d: Doing, k: nat, m: Mark)
    requires Sized(v)
  {
    || Enters(cfg, v, d, k) || Empties(cfg, d, k)
    || ((m.LeaveTold? || m.LastHeard?) && (Quits(cfg, v, d, k) || Forgets(cfg, v, d, k)))
  }

  ghost function Noted(v: Viewer, d: Doing, k: nat, m: Mark): Option<Time>
    requires k < |v.groups|
  {
    var g := v.groups[k];
    match m
    case JoinTold => if Takes(v, d, k) && !g.state.Leaving? then Some(d.now) else None
    case LeaveTold => if Takes(v, d, k) && g.state.Leaving? && !d.version.V1? then Some(d.now) else None
    case FirstHeard => if Hears(g, d) && Wanted(g.state) then Some(d.now) else None
    case LastHeard => if Hears(g, d) then Some(d.now) else None
  }

  // The first time since then, or the last for packets after a leave.
  ghost function Since(cfg: ZapConfig, v: Viewer, ds: seq<Doing>, k: nat, m: Mark): Option<Time>
    requires Zapping(cfg) && SlotInv(v) && k < MAX_GROUPS
  {
    if ds == [] then None
    else
      var w := Watch(cfg, v, ds[..|ds| - 1]);
      var d := ds[|ds| - 1];
      var before := Since(cfg, v, ds[..|ds| - 1], k, m);
      if Renews(cfg, w, d, k, m) then None
      else if Noted(w, d, k, m).Some? && (before.None? || m.LastHeard?) then Noted(w, d, k, m)
      else before
  }

  // A time whose seconds are zero stands for none.
  predicate Shows(m: Mark, t: Time, o: Option<Time>) {
    match o
    case None => t.sec == 0 && (m.JoinTold? || m.FirstHeard? ==> t == NEVER)
    case Some(x) => t == x && x.sec != 0
  }

  predicate Clocked(d: Doing) {
    (d.DoReport? || d.DoRx?) ==> d.now.sec != 0
  }

  ghost predicate AllClocked(ds: seq<Doing>) {
    forall i :: 0 <= i < |ds| ==> Clocked(ds[i])
  }

  lemma ShowsNext(cfg: ZapConfig, v: Viewer, d: Doing, k: nat, m: Mark, o: Option<Time>)
    requires cfg.groups > 0 && SlotInv(v) && k < MAX_GROUPS && Clocked(d) && Shows(m, ClockOf(v.groups[k], m), o)
    ensures Sized(Act(cfg, v, d))
    ensures Shows(m, ClockOf(Act(cfg, v, d).groups[k], m),
                  if Renews(cfg, v, d, k, m) then None
                  else if Noted(v, d, k, m).Some? && (o.None? || m.LastHeard?) then Noted(v, d, k, m) else o)
  {
    hide Act, Room, Watching, SlotInv;
    SlotsSized(v);
    SlotBecomes(cfg, v, d, k);
  }

  // In every run with a running clock the four times of a slot are those of its history.
  lemma {:induction false} TimesMatchHistory(cfg: ZapConfig, v: Viewer, ds: seq<Doing>, k: nat, m: Mark)
    requires Zapping(cfg) && SlotInv(v) && k < MAX_GROUPS && AllClocked(ds) && ClockOf(v.groups[k], m) == NEVER
    ensures Shows(m, ClockOf(Watch(cfg, v, ds).groups[k], m), Since(cfg, v, ds, k, m))
  {
    hide Act, Renews, Noted, Shows, SlotInv, Clocked, ClockOf;
    SlotsSized(v);
    if ds == [] {
      ShowsNone(m);
    } else {
      var n := |ds| - 1;
      TimesMatchHistory(cfg, v, ds[..n], k, m);
      ShowsNext(cfg, Watch(cfg, v, ds[..n]), ds[n], k, m, Since(cfg, v, ds[..n], k, m));
    }
  }

  lemma ShowsNone(m: Mark)
    ensures Shows(m, NEVER, None)
  {
  }

  // ---- Join delays

  predicate Untimed(v: Viewer) {
    forall k, m :: 0 <= k < |v.groups| ==> ClockOf(v.groups[k], m) == NEVER
  }

  // Each delay that is measured runs from the first report of the join to the first
  // packet of the group, or from the zero of the clock if no report was sent before.
  lemma JoinDelayIs(cfg: ZapConfig, v: Viewer, ds: seq<Doing>, d: Doing)
    requires Zapping(cfg) && SlotInv(v) && AllClocked(ds) && Untimed(v)
    ensures var w := Watch(cfg, v, ds);
      MeasuredBy(cfg, w, d) != [] ==>
        && w.joined.Some? && w.joined.value < MAX_GROUPS
        && var told, heard := Since(cfg, v, ds, w.joined.value, JoinTold), Since(cfg, v, ds, w.joined.value, FirstHeard);
          heard.Some? && MeasuredBy(cfg, w, d) == [Delay(if told.Some? then told.value else NEVER, heard.value)]
  {
    hide Act, Watching, SlotInv, Since, Delay;
    var w := Watch(cfg, v, ds);
    SlotsSized(v);
    SlotsSized(w);
    if w.joined.Some? {
      var k := w.joined.value;
      assert ClockOf(v.groups[k], JoinTold) == NEVER && ClockOf(v.groups[k], FirstHeard) == NEVER;
      TimesMatchHistory(cfg, v, ds, k, JoinTold);
      TimesMatchHistory(cfg, v, ds, k, FirstHeard);
    }
  }

  // For example: a packet of the group arrives 100 seconds after the zero of the clock,
  // before the join is reported. The delay recorded is 100 seconds.
  lemma UnreportedJoin(cfg: ZapConfig, v: Viewer, on: bool, now: Time)
    requires Zapping(cfg) && SlotInv(v) && v.joined == Some(0) && v.viewStart.sec == 0
    requires v.groups[0].joinTx == NEVER && v.groups[0].firstRx == Time(100, 0) && !v.groups[0].measured
    ensures MeasuredBy(cfg, v, DoZap(true, on, now)) == [100_000]
  {
  }

  // ---- Leave delays

  // The leave delay that an event records, from the history of the group left before.
  ghost function LeaveBy(cfg: ZapConfig, v: Viewer, ds: seq<Doing>, d: Doing): seq<nat>
    requires Zapping(cfg) && SlotInv(v)
  {
    var w := Watch(cfg, v, ds);
    if !Switches(cfg, w, d) || w.groups[w.leaved.value].address == 0 then []
    else
      var told := Since(cfg, v, ds, w.leaved.value, LeaveTold);
      var heard := Since(cfg, v, ds, w.leaved.value, LastHeard);
      if told.Some? && heard.Some? then [Delay(told.value, heard.value)] else []
  }

  lemma LeaveStep(cfg: ZapConfig, v: Viewer, d: Doing)
    requires cfg.groups > 0 && SlotInv(v) && !d.DoReset?
    ensures Act(cfg, v, d).leave == if Switches(cfg, v, d) then LeaveDelay(v.leave, v.groups[v.leaved.value]) else v.leave
  {
    hide LeaveDelay, Watching, Delay, Measure, Classify, NextGroup, RxMc, Report;
    if d.DoRx? {
      RxKeepsLeave(v, MAX_GROUPS, d.dst, d.now, d.seqNo);
    }
  }

  lemma {:induction false} RxKeepsLeave(v: Viewer, n: nat, dst: nat, now: Time, seqNo: Option<nat>)
    requires n <= |v.groups|
    ensures RxMc(v, n, dst, now, seqNo).leave == v.leave
  {
    hide Lost, NewGroupSeen;
    if n > 0 {
      RxKeepsLeave(v, n - 1, dst, now, seqNo);
    }
  }

  lemma LeaveMeasured(cfg: ZapConfig, v: Viewer, ds: seq<Doing>, d: Doing)
    requires Zapping(cfg) && SlotInv(v) && AllClocked(ds) && Untimed(v) && !d.DoReset?
    ensures var w, m := Watch(cfg, v, ds), LeaveBy(cfg, v, ds, d);
      && (m == [] || (|m| == 1 && 1 <= m[0] < WORD))
      && Act(cfg, w, d).leave == if m == [] then w.leave else Measure(w.leave, m[0])
  {
    hide Act, Watching, SlotInv, Since, Delay, Measure, Wanted;
    var w := Watch(cfg, v, ds);
    SlotsSized(v);
    SlotsSized(w);
    LeaveStep(cfg, w, d);
    if w.leaved.Some? {
      var k := w.leaved.value;
      assert ClockOf(v.groups[k], LeaveTold) == NEVER && ClockOf(v.groups[k], LastHeard) == NEVER;
      TimesMatchHistory(cfg, v, ds, k, LeaveTold);
      TimesMatchHistory(cfg, v, ds, k, LastHeard);
      DelayInWord(w.groups[k].leaveTx, w.groups[k].lastRx);
    }
  }

  ghost function Leaves(cfg: ZapConfig, v: Viewer, ds: seq<Doing>): seq<nat>
    requires Zapping(cfg) && SlotInv(v)
  {
    if ds == [] then [] else Leaves(cfg, v, ds[..|ds| - 1]) + LeaveBy(cfg, v, ds[..|ds| - 1], ds[|ds| - 1])
  }

  ghost function LeavesSinceReset(cfg: ZapConfig, v: Viewer, ds: seq<Doing>): seq<nat>
    requires Zapping(cfg) && SlotInv(v)
  {
    if ds == [] || ds[|ds| - 1].DoReset? then []
    else LeavesSinceReset(cfg, v, ds[..|ds| - 1]) + LeaveBy(cfg, v, ds[..|ds| - 1], ds[|ds| - 1])
  }

  // The leave-delay statistics over every run, resets included: sum and count are of
  // all leave delays, minimum and maximum of those since the last reset.
  lemma {:induction false} LeaveStatistics(cfg: ZapConfig, v: Viewer, ds: seq<Doing>)
    requires Zapping(cfg) && SlotInv(v) && AllClocked(ds) && Untimed(v) && v.leave == Delays(0, 0, 0, 0, 0)
    ensures |Leaves(cfg, v, ds)| < WORD ==>
      Blends(Watch(cfg, v, ds).leave, Leaves(cfg, v, ds), LeavesSinceReset(cfg, v, ds))
  {
    if ds == [] {
    } else {
      hide Act, LeaveBy, Blends, Delay, Measure, SlotInv, Untimed, Clocked;
      var n := |ds| - 1;
      var w := Watch(cfg, v, ds[..n]);
      LeaveStatistics(cfg, v, ds[..n]);
      var h, m := Leaves(cfg, v, ds[..n]), LeaveBy(cfg, v, ds[..n], ds[n]);
      var recent := LeavesSinceReset(cfg, v, ds[..n]);
      if ds[n].DoReset? {
        ResetLeavesNothing(cfg, v, ds[..n], ds[n]);
        assert h + m == h;
        if |h| < WORD {
          ResetLeaveBlends(w, h, recent);
        }
      } else {
        LeaveMeasured(cfg, v, ds[..n], ds[n]);
        if m == [] {
          assert h + m == h && recent + m == recent;
        } else if |h| + 1 < WORD {
          assert m == [m[0]];
          MeasureBlends(w.leave, h, recent, m[0]);
        }
      }
    }
  }

  lemma ResetLeavesNothing(cfg: ZapConfig, v: Viewer, ds: seq<Doing>, d: Doing)
    requires Zapping(cfg) && SlotInv(v) && d.DoReset?
    ensures LeaveBy(cfg, v, ds, d) == []
    ensures Sized(Watch(cfg, v, ds)) && Act(cfg, Watch(cfg, v, ds), d).leave == Reset(Watch(cfg, v, ds)).leave
  {
  }

  lemma ResetLeaveBlends(v: Viewer, h: seq<nat>, recent: seq<nat>)
    requires Blends(v.leave, h, recent)
    ensures Blends(Reset(v).leave, h, [])
  {
  }
}
