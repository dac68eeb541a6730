/**
 Zapping and viewing take turns: after as many zaps as configured the session watches
 one group for the configured time. And packets of a group that was left.
 */
module Views {
  import opened Types
  import opened ZappingSpec
  import opened ZappingRuns
  import opened Reports
  import opened JoinDelays

  // ---- The initial join

  // Without a session that is up nothing is joined. With one, the first slot asks for
  // one of the configured groups.
  lemma InitialJoinIn(cfg: ZapConfig, v: Viewer, up: bool, start: nat, zaps: nat) returns (i: nat)
    requires Sized(v) && 0 < cfg.groups && cfg.base + (cfg.groups - 1) * cfg.iter < WORD
    ensures i < cfg.groups
    ensures var w := Act(cfg, v, DoJoin(up, start, zaps));
      if !up then w == v
      else
        && Due(w.groups[0]) && w.groups[0].state.Joining? && w.groups[0].robustness == v.robustness
        && w.groups[0].address == Address(cfg, i)
        && (forall k :: 2 <= k < MAX_GROUPS ==> w.groups[k] == v.groups[k])
        && (if Zapping(cfg) then w.joined == Some(0) && w.leaved == Some(1) else w.joined == v.joined && w.leaved == v.leaved)
        && (Zapping(cfg) && Viewing(cfg) ==> w.zaps < cfg.zapCount)
  {
    i := if cfg.groups > 1 then start % cfg.groups else 0;
    Product(i, cfg.groups - 1, cfg.iter);
  }

  // ---- Views

  predicate Viewing(cfg: ZapConfig) {
    0 < cfg.zapCount < 256 && cfg.viewDuration > 0
  }

  // The view lasts as long as configured.
  lemma WatchingIff(cfg: ZapConfig, v: Viewer, now: Time)
    requires IsTime(v.viewStart) && IsTime(now) && cfg.viewDuration > 0 && v.viewStart.sec != 0
    ensures Watching(cfg, v, now) <==> Nanos(now) < Nanos(v.viewStart) + cfg.viewDuration * SECOND
  {
    TimeSubExact(now, v.viewStart);
    var d := TimeSub(now, v.viewStart);
    assert d.sec < cfg.viewDuration <==> Nanos(d) < cfg.viewDuration * SECOND;
  }

  // A tick ends the view.
  ghost predicate Wakes(cfg: ZapConfig, v: Viewer, d: Doing)
    requires Sized(v)
  {
    d.DoZap? && d.up && v.joined.Some? && v.leaved.Some? && v.viewStart.sec != 0 && !Watching(cfg, v, d.now)
  }

  // The zaps since the last view.
  ghost function ZapsNext(cfg: ZapConfig, v: Viewer, d: Doing, n: nat): nat
    requires Sized(v)
  {
    if d.DoReset? then 0
    else if d.DoJoin? && d.up then (if Zapping(cfg) && Viewing(cfg) then d.zaps % cfg.zapCount else 1)
    else (if Wakes(cfg, v, d) then 0 else n) + (if Switches(cfg, v, d) then 1 else 0)
  }

  ghost function Zaps(cfg: ZapConfig, v: Viewer, ds: seq<Doing>): nat
    requires Zapping(cfg) && SlotInv(v)
  {
    if ds == [] then v.zaps
    else ZapsNext(cfg, Watch(cfg, v, ds[..|ds| - 1]), ds[|ds| - 1], Zaps(cfg, v, ds[..|ds| - 1]))
  }

  // The time of the last zap.
  ghost function LastZap(cfg: ZapConfig, v: Viewer, ds: seq<Doing>): Time
    requires Zapping(cfg) && SlotInv(v)
  {
    if ds == [] then NEVER
    else if Switches(cfg, Watch(cfg, v, ds[..|ds| - 1]), ds[|ds| - 1]) then ds[|ds| - 1].now
    else LastZap(cfg, v, ds[..|ds| - 1])
  }

  // A view is on exactly after that many zaps, and began with the last of them.
  predicate ViewInv(cfg: ZapConfig, v: Viewer, zaps: nat, last: Time) {
    && v.zaps == zaps <= cfg.zapCount
    && (v.viewStart.sec == 0 <==> zaps < cfg.zapCount)
    && (v.viewStart.sec != 0 ==> v.viewStart == last)
    && (v.joined.None? ==> v.viewStart.sec == 0)
  }

  // The session joins only when nothing is joined, and the clock runs.
  ghost predicate InOrder(v: Viewer, d: Doing) {
    (d.DoJoin? ==> v.joined.None?) && (d.DoZap? ==> d.now.sec != 0)
  }

  ghost predicate AllInOrder(cfg: ZapConfig, v: Viewer, ds: seq<Doing>)
    requires Zapping(cfg) && SlotInv(v)
  {
    forall i :: 0 <= i < |ds| ==> InOrderAt(cfg, v, ds, i)
  }

  ghost predicate InOrderAt(cfg: ZapConfig, v: Viewer, ds: seq<Doing>, i: nat)
    requires Zapping(cfg) && SlotInv(v) && i < |ds|
  {
    InOrder(Watch(cfg, v, ds[..i]), ds[i])
  }

  lemma ViewZap(cfg: ZapConfig, v: Viewer, d: Doing, zaps: nat, last: Time)
    requires Viewing(cfg) && cfg.groups > 0 && SlotInv(v) && ViewInv(cfg, v, zaps, last) && d.DoZap? && d.now.sec != 0
    ensures ViewInv(cfg, Act(cfg, v, d), ZapsNext(cfg, v, d, zaps), if Switches(cfg, v, d) then d.now else last)
  {
    hide Judge, Switch, Watching, SlotInv, Wanted;
    SlotsSized(v);
    if v.joined.Some? {
      JudgeViews(cfg, WakeUp(v), v.joined.value, v.leaved.value, d.on);
      JudgeBecomes(cfg, WakeUp(v), v.joined.value);
    }
  }

  lemma JudgeViews(cfg: ZapConfig, v: Viewer, j: nat, l: nat, on: bool)
    requires cfg.groups > 0 && Sized(v) && j < |v.groups| && l < |v.groups|
    ensures var w := Judge(cfg, v, j).0;
      && |w.groups| == |v.groups| && w.zaps == v.zaps && w.viewStart == v.viewStart && w.joined == v.joined
      && var u := Switch(cfg, w, j, l, on);
      u.zaps == v.zaps && u.viewStart == v.viewStart && (u.joined == v.joined || u.joined == Some(l))
  {
    hide Delay, Measure, Classify, NextGroup, LeaveDelay;
  }

  lemma ViewNext(cfg: ZapConfig, v: Viewer, d: Doing, zaps: nat, last: Time)
    requires Viewing(cfg) && Zapping(cfg) && SlotInv(v) && ViewInv(cfg, v, zaps, last) && InOrder(v, d)
    ensures ViewInv(cfg, Act(cfg, v, d), ZapsNext(cfg, v, d, zaps), if Switches(cfg, v, d) then d.now else last)
  {
    if d.DoZap? {
      hide Act, ZapsNext, ViewInv;
      ViewZap(cfg, v, d, zaps, last);
    } else if Passive(d) {
      hide Act;
      PassiveKeeps(cfg, v, d, 0);
    }
  }

  // In every run: a view is on exactly when as many zaps were made since the last one
  // as configured, and it began with the last of them.
  lemma {:induction false} ViewsTakeTurns(cfg: ZapConfig, v: Viewer, ds: seq<Doing>)
    requires Viewing(cfg) && Zapping(cfg) && SlotInv(v) && AllInOrder(cfg, v, ds)
    requires v.zaps < cfg.zapCount && v.viewStart == NEVER
    ensures ViewInv(cfg, Watch(cfg, v, ds), Zaps(cfg, v, ds), LastZap(cfg, v, ds))
  {
    if ds == [] {
    } else {
      hide Act, ZapsNext, ViewInv, Switches, SlotInv, InOrder;
      var n := |ds| - 1;
      forall i | 0 <= i < n ensures InOrderAt(cfg, v, ds[..n], i) {
        assert ds[..n][..i] == ds[..i];
        assert InOrderAt(cfg, v, ds, i);
      }
      ViewsTakeTurns(cfg, v, ds[..n]);
      assert InOrderAt(cfg, v, ds, n);
      ViewNext(cfg, Watch(cfg, v, ds[..n]), ds[n], Zaps(cfg, v, ds[..n]), LastZap(cfg, v, ds[..n]));
    }
  }

  // ---- Packets of a group that was left

  // The packet is for the group left last, and the one joined since was heard.
  ghost predicate Straggles(v: Viewer, d: Doing)
    requires Sized(v)
  {
    && d.DoRx? && v.leaved.Some? && v.joined.Some?
    && var g, h := v.groups[v.leaved.value], v.groups[v.joined.value];
    && g.address == d.dst && !Wanted(g.state)
    && (h.firstRx.sec != 0
        || (h.address == d.dst && Wanted(h.state) && d.now.sec != 0 && v.joined.value < v.leaved.value))
  }

  lemma RxGroupStale(v: Viewer, i: nat, dst: nat, now: Time, seqNo: Option<nat>)
    requires Sized(v) && i < |v.groups| && (v.joined.Some? ==> v.joined != v.leaved)
    ensures RxGroup(v, i, dst, now, seqNo).traffic.stale
         == v.traffic.stale
            + if v.groups[i].address == dst && !Wanted(v.groups[i].state) && v.leaved == Some(i)
                 && v.joined.Some? && v.groups[v.joined.value].firstRx.sec != 0 then 1 else 0
  {
    hide Lost;
  }

  lemma {:induction false} RxStale(v: Viewer, n: nat, dst: nat, now: Time, seqNo: Option<nat>)
    requires SlotInv(v) && n <= MAX_GROUPS
    ensures RxMc(v, n, dst, now, seqNo).traffic.stale
         == v.traffic.stale + if v.leaved.Some? && v.leaved.value < n && Straggles(v, DoRx(dst, now, seqNo)) then 1 else 0
  {
    if n > 0 {
      hide RxGroup, SlotInv;
      SlotsSized(v);
      RxStale(v, n - 1, dst, now, seqNo);
      var w := RxMc(v, n - 1, dst, now, seqNo);
      RxKeeps(v, n - 1, dst, now, seqNo, n - 1);
      RxBecomes(v, n - 1, dst, now, seqNo, n - 1);
      RxGroupStale(w, n - 1, dst, now, seqNo);
      if v.joined.Some? {
        RxBecomes(v, n - 1, dst, now, seqNo, v.joined.value);
      }
    }
  }

  ghost function Stragglers(cfg: ZapConfig, v: Viewer, ds: seq<Doing>): nat
    requires Zapping(cfg) && SlotInv(v)
  {
    if ds == [] then v.traffic.stale
    else if ds[|ds| - 1].DoReset? then 0
    else Stragglers(cfg, v, ds[..|ds| - 1]) + if Straggles(Watch(cfg, v, ds[..|ds| - 1]), ds[|ds| - 1]) then 1 else 0
  }

  lemma StaleNext(cfg: ZapConfig, v: Viewer, d: Doing)
    requires Zapping(cfg) && SlotInv(v)
    ensures Act(cfg, v, d).traffic.stale == if d.DoReset? then 0 else v.traffic.stale + if Straggles(v, d) then 1 else 0
  {
    hide RxMc, Report, Delay, Measure, Classify, NextGroup, LeaveDelay, Watching;
    if d.DoRx? {
      RxStale(v, MAX_GROUPS, d.dst, d.now, d.seqNo);
    }
  }

  // The counter of such packets counts them, in every run.
  lemma {:induction false} StaleCounted(cfg: ZapConfig, v: Viewer, ds: seq<Doing>)
    requires Zapping(cfg) && SlotInv(v)
    ensures Watch(cfg, v, ds).traffic.stale == Stragglers(cfg, v, ds)
  {
    hide Act, Straggles, SlotInv;
    if ds != [] {
      StaleCounted(cfg, v, ds[..|ds| - 1]);
      StaleNext(cfg, Watch(cfg, v, ds[..|ds| - 1]), ds[|ds| - 1]);
    }
  }
}
