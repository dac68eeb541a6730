/**
 IGMP reports: which groups a report takes, what it leaves of them, and how often a
 join or a leave is announced.
 */
module Reports {
  import opened Types
  import opened ZappingSpec
  import opened ZappingRuns

  // ---- One report

  // The group has something to report.
  predicate Due(g: Group) {
    g.send && !g.state.Off?
  }

  ghost predicate FirstDue(gs: seq<Group>, k: nat) {
    k < |gs| && Due(gs[k]) && forall i :: 0 <= i < k ==> !Due(gs[i])
  }

  // Whether a report that is built now has room for slot k: before version 3 it holds
  // one group, the first that is due; version 3 holds all, but unless told otherwise
  // only joins or only leaves, like the first.
  ghost predicate Room(gs: seq<Group>, version: Version, combined: bool, k: nat)
    requires k < |gs|
  {
    forall i :: 0 <= i < k && FirstDue(gs, i) ==>
      version.V3? && (combined || gs[i].state.Leaving? == gs[k].state.Leaving?)
  }

  function Less(n: nat): nat {
    if n > 0 then n - 1 else 0
  }

  // What a report leaves of a group it took: the time of the first report stands, and
  // version 3 settles the group with the last repetition. Version 1 knows no leave.
  function Taken(version: Version, g: Group, now: Time): Group {
    Group(g.address,
          if g.state.Leaving? && version.V1? then Off
          else if !version.V3? || g.robustness > 1 then g.state
          else if g.state.Joining? then Active else if g.state.Leaving? then Off else g.state,
          Less(g.robustness), false, g.packets, g.loss,
          if !g.state.Leaving? && g.joinTx.sec == 0 then now else g.joinTx,
          g.firstRx,
          if g.state.Leaving? && !version.V1? && g.leaveTx.sec == 0 then now else g.leaveTx,
          g.lastRx, g.measured)
  }

  // Room from slot i on, when the report already holds joins or leaves.
  ghost predicate RoomFrom(gs: seq<Group>, i: nat, version: Version, combined: bool, isJoin: bool, isLeave: bool, k: nat)
    requires i <= k < |gs|
  {
    if version.V3? then
      combined || (if isJoin then !gs[k].state.Leaving? else if isLeave then gs[k].state.Leaving?
                   else forall n :: i <= n < k && Due(gs[n]) && (forall m :: i <= m < n ==> !Due(gs[m])) ==>
                          gs[n].state.Leaving? == gs[k].state.Leaving?)
    else forall n :: i <= n < k ==> !Due(gs[n])
  }

  lemma TakenIs(g: Group, now: Time)
    requires Due(g)
    ensures Settled(Reported(g, now)) == Taken(V3, g, now) && Reported(g, now) == Taken(V2, g, now)
    ensures Taken(V1, g, now)
         == if g.state.Leaving?
            then g.(send := false, state := Off, robustness := if g.robustness > 0 then g.robustness - 1 else 0)
            else Reported(g, now)
    ensures !Due(Taken(V3, g, now))
  {
  }

  lemma {:induction false} ReportFrom(gs: seq<Group>, i: nat, version: Version, combined: bool, isJoin: bool, isLeave: bool,
                                      now: Time, k: nat)
    requires i <= |gs| && k < |gs| && !(isJoin && isLeave) && (!version.V3? ==> !isJoin && !isLeave)
    ensures Report(gs, i, version, combined, isJoin, isLeave, now)[k]
         == if i <= k && Due(gs[k]) && RoomFrom(gs, i, version, combined, isJoin, isLeave, k)
            then Taken(version, gs[k], now) else gs[k]
    decreases |gs| - i
  {
    hide Reported, Settled, Taken;
    if i < |gs| {
      var g := gs[i];
      var leaving := g.state.Leaving?;
      if !g.send || g.state.Off? || (!combined && (if leaving then isJoin else isLeave)) {
        ReportFrom(gs, i + 1, version, combined, isJoin, isLeave, now, k);
      } else {
        TakenIs(g, now);
        if version.V3? {
          var hs := gs[i := Settled(Reported(g, now))];
          ReportFrom(hs, i + 1, version, combined, isJoin || (!leaving && !isLeave), isLeave || (leaving && !isJoin), now, k);
        }
      }
    }
  }

  // A report takes exactly the groups that are due and for which it has room, and
  // touches no other.
  lemma ReportTakes(gs: seq<Group>, version: Version, combined: bool, now: Time, k: nat)
    requires k < |gs|
    ensures Report(gs, 0, version, combined, false, false, now)[k]
         == if Due(gs[k]) && Room(gs, version, combined, k) then Taken(version, gs[k], now) else gs[k]
  {
    hide Taken, Report;
    ReportFrom(gs, 0, version, combined, false, false, now, k);
    if !version.V3? && Room(gs, version, combined, k) {
      NoneDueBefore(gs, k);
    }
  }

  // If no slot before k is the first that is due, none is due.
  lemma {:induction false} NoneDueBefore(gs: seq<Group>, k: nat)
    requires k <= |gs| && forall i :: 0 <= i < k ==> !FirstDue(gs, i)
    ensures forall i :: 0 <= i < k ==> !Due(gs[i])
  {
    if k > 0 {
      NoneDueBefore(gs, k - 1);
      assert !FirstDue(gs, k - 1);
    }
  }

  // ---- How one slot changes

  // The zapping timer leaves the joined group.
  ghost predicate Switches(cfg: ZapConfig, v: Viewer, d: Doing)
    requires Sized(v)
  {
    && d.DoZap? && d.up && v.joined.Some? && v.leaved.Some? && !Watching(cfg, v, d.now)
    && (v.groups[v.joined.value].firstRx.sec != 0 || !cfg.wait)
    && (d.on || Wanted(v.groups[v.joined.value].state))
  }

  predicate Zapping(cfg: ZapConfig) {
    cfg.groups > 1 && cfg.interval > 0
  }

  // Slot k gets a new group.
  ghost predicate Enters(cfg: ZapConfig, v: Viewer, d: Doing, k: nat)
    requires Sized(v)
  {
    (d.DoJoin? && d.up && k == 0) || (Switches(cfg, v, d) && d.on && v.leaved == Some(k))
  }

  // Slot k is emptied.
  predicate Empties(cfg: ZapConfig, d: Doing, k: nat) {
    d.DoJoin? && d.up && k == 1 && Zapping(cfg)
  }

  // The group in slot k is left.
  ghost predicate Quits(cfg: ZapConfig, v: Viewer, d: Doing, k: nat)
    requires Sized(v)
  {
    Switches(cfg, v, d) && v.joined == Some(k)
  }

  // Zapping stops, and the group that was left before is forgotten.
  ghost predicate Forgets(cfg: ZapConfig, v: Viewer, d: Doing, k: nat)
    requires Sized(v)
  {
    Switches(cfg, v, d) && !d.on && v.leaved == Some(k)
  }

  ghost predicate Takes(v: Viewer, d: Doing, k: nat)
    requires k < |v.groups|
  {
    d.DoReport? && Due(v.groups[k]) && Room(v.groups, d.version, d.combined, k)
  }

  predicate Hears(g: Group, d: Doing) {
    d.DoRx? && d.dst == g.address
  }

  predicate Asked(g: Group, d: Doing) {
    d.DoQuery? && g.state.Active? && (d.address == 0 || d.address == g.address)
  }

  predicate Timed(g: Group, d: Doing) {
    d.DoTimeout? && d.up && (g.state.Joining? || g.state.Leaving?)
  }

  // The slot after an event, but for the verdict about the join and the loss.
  ghost predicate Becomes(cfg: ZapConfig, v: Viewer, d: Doing, k: nat, g: Group, h: Group)
    requires Sized(v) && k < |v.groups|
  {
    if Enters(cfg, v, d, k) then
      h == Group(h.address, Joining, v.robustness, true, 0, 0, NEVER, NEVER, NEVER, NEVER, false)
    else if Empties(cfg, d, k) then h == Group(0, Off, 0, false, 0, 0, NEVER, NEVER, NEVER, NEVER, false)
    else if Quits(cfg, v, d, k) then
      h == Group(g.address, Leaving, v.robustness, true, g.packets, g.loss, g.joinTx, g.firstRx, NEVER, NEVER, true)
    else if Forgets(cfg, v, d, k) then
      && h == g.(leaveTx := h.leaveTx, lastRx := h.lastRx)
      && h.leaveTx.sec == 0 && h.lastRx.sec == 0
    else if Takes(v, d, k) then h == Taken(d.version, g, d.now)
    else if Hears(g, d) then
      h == g.(packets := (g.packets + 1) % LONG, loss := h.loss, lastRx := d.now,
              firstRx := if Wanted(g.state) && g.firstRx.sec == 0 then d.now else g.firstRx)
    else if Asked(g, d) then h == g.(send := true)
    else if Timed(g, d) then
      h == if g.robustness > 0 then g.(send := true) else g.(state := if g.state.Joining? then Active else Off)
    else h == g.(measured := h.measured)
  }

  lemma SwitchBecomes(cfg: ZapConfig, v: Viewer, on: bool, k: nat)
    requires cfg.groups > 0 && SlotInv(v) && v.joined.Some? && k < MAX_GROUPS
    ensures var g, h := v.groups[k], Switch(cfg, v, v.joined.value, v.leaved.value, on).groups[k];
      if v.joined == Some(k) then
        h == g.(state := Leaving, robustness := v.robustness, send := true, leaveTx := NEVER, lastRx := NEVER)
      else if v.leaved == Some(k) && on then
        h == Group(h.address, Joining, v.robustness, true, 0, 0, NEVER, NEVER, NEVER, NEVER, false)
      else if v.leaved == Some(k) then
        h == g.(leaveTx := h.leaveTx, lastRx := h.lastRx) && h.leaveTx.sec == 0 && h.lastRx.sec == 0
      else h == g
  {
    hide NextGroup, LeaveDelay;
  }

  lemma JudgeBecomes(cfg: ZapConfig, v: Viewer, k: nat)
    requires SlotInv(v) && v.joined.Some? && k < MAX_GROUPS
    ensures var (w, judged) := Judge(cfg, v, v.joined.value);
      && judged == (v.groups[v.joined.value].firstRx.sec != 0 || !cfg.wait)
      && SlotInv(w) && w.joined == v.joined && w.leaved == v.leaved && w.robustness == v.robustness
      && w.groups[k] == v.groups[k].(measured := w.groups[k].measured)
      && (judged && v.joined == Some(k) ==> w.groups[k].measured)
      && (v.joined != Some(k) ==> w.groups[k] == v.groups[k])
      && Wanted(w.groups[v.joined.value].state) == Wanted(v.groups[v.joined.value].state)
  {
    hide Delay, Measure, Classify;
  }

  lemma SlotsSized(v: Viewer)
    requires SlotInv(v)
    ensures Sized(v) && (v.joined.Some? <==> v.leaved.Some?) && (v.joined.Some? ==> v.joined != v.leaved) && SlotInv(WakeUp(v))
  {
  }

  // The groups after a tick of the zapping timer.
  lemma ZapGroups(cfg: ZapConfig, v: Viewer, d: Doing)
    requires cfg.groups > 0 && SlotInv(v) && d.DoZap?
    ensures |Act(cfg, v, d).groups| == MAX_GROUPS
    ensures Switches(cfg, v, d) ==>
      var w := Judge(cfg, WakeUp(v), v.joined.value).0;
      SlotInv(w) && w.joined == v.joined && w.leaved == v.leaved
      && Act(cfg, v, d).groups == Switch(cfg, w, v.joined.value, v.leaved.value, d.on).groups
    ensures !Switches(cfg, v, d) ==>
      Act(cfg, v, d).groups == v.groups
      || (v.joined.Some? && Act(cfg, v, d).groups == Judge(cfg, WakeUp(v), v.joined.value).0.groups)
  {
    hide Judge, Switch, Watching, SlotInv, Wanted;
    SlotsSized(v);
    ZapKeepsSlots(cfg, v, d.up, d.on, d.now);
    SlotsSized(Act(cfg, v, d));
    if v.joined.Some? {
      JudgeBecomes(cfg, WakeUp(v), v.joined.value);
    }
  }

  lemma ZapSlot(cfg: ZapConfig, v: Viewer, d: Doing, k: nat)
    requires cfg.groups > 0 && SlotInv(v) && d.DoZap? && k < MAX_GROUPS
    ensures var g, h := v.groups[k], Act(cfg, v, d).groups[k];
      if Quits(cfg, v, d, k) then
        h == g.(state := Leaving, robustness := v.robustness, send := true, leaveTx := NEVER, lastRx := NEVER, measured := true)
      else if Enters(cfg, v, d, k) then
        h == Group(h.address, Joining, v.robustness, true, 0, 0, NEVER, NEVER, NEVER, NEVER, false)
      else if Forgets(cfg, v, d, k) then
        h == g.(leaveTx := h.leaveTx, lastRx := h.lastRx) && h.leaveTx.sec == 0 && h.lastRx.sec == 0
      else h == g.(measured := h.measured)
  {
    hide Act, Judge, Switch, Watching, SlotInv, Wanted;
    SlotsSized(v);
    ZapGroups(cfg, v, d);
    if v.joined.Some? {
      JudgeBecomes(cfg, WakeUp(v), k);
      if Switches(cfg, v, d) {
        SwitchBecomes(cfg, Judge(cfg, WakeUp(v), v.joined.value).0, d.on, k);
      }
    }
  }

  lemma ZapBecomes(cfg: ZapConfig, v: Viewer, d: Doing, k: nat)
    requires cfg.groups > 0 && SlotInv(v) && d.DoZap? && k < MAX_GROUPS
    ensures Becomes(cfg, v, d, k, v.groups[k], Act(cfg, v, d).groups[k])
  {
    hide Act, SlotInv, Switches, Taken, Room;
    SlotsSized(v);
    ZapSlot(cfg, v, d, k);
  }

  lemma {:induction false} RxBecomes(v: Viewer, n: nat, dst: nat, now: Time, seqNo: Option<nat>, k: nat)
    requires n <= |v.groups| && k < |v.groups|
    ensures var w := RxMc(v, n, dst, now, seqNo);
      var g, h := v.groups[k], w.groups[k];
      if k < n && g.address == dst then
        h == g.(packets := (g.packets + 1) % LONG, loss := h.loss, lastRx := now,
                firstRx := if Wanted(g.state) && g.firstRx.sec == 0 then now else g.firstRx)
      else h == g
  {
    if n > 0 {
      hide Lost, NewGroupSeen;
      RxBecomes(v, n - 1, dst, now, seqNo, k);
    }
  }

  // Every event does to a slot what is said above.
  lemma SlotBecomes(cfg: ZapConfig, v: Viewer, d: Doing, k: nat)
    requires cfg.groups > 0 && SlotInv(v) && k < MAX_GROUPS
    ensures Sized(Act(cfg, v, d)) && Becomes(cfg, v, d, k, v.groups[k], Act(cfg, v, d).groups[k])
  {
    match d
    case DoZap(up, on, now) =>
      hide Zap, Becomes;
      ZapKeepsSlots(cfg, v, up, on, now);
      ZapBecomes(cfg, v, d, k);
    case DoReport(version, combined, now) =>
      hide Taken, Report;
      ReportTakes(v.groups, version, combined, now, k);
    case DoRx(dst, now, seqNo) =>
      hide RxMc;
      PassiveKeeps(cfg, v, d, k);
      RxBecomes(v, MAX_GROUPS, dst, now, seqNo, k);
    case _ =>
      hide Watching;
  }

  // ---- How often a join or a leave is announced

  // The last thing to announce about a slot: a join or a leave, how often, and how
  // often it was.
  datatype Ask = Nothing | Ask(leaving: bool, times: nat, told: nat)

  ghost function AskNext(cfg: ZapConfig, v: Viewer, d: Doing, k: nat, a: Ask): Ask
    requires Sized(v) && k < MAX_GROUPS
  {
    if Enters(cfg, v, d, k) then Ask(false, v.robustness, 0)
    else if Empties(cfg, d, k) then Nothing
    else if Quits(cfg, v, d, k) then Ask(true, v.robustness, 0)
    else if a.Ask? && Takes(v, d, k) then (if d.version.V1? && a.leaving then Nothing else a.(told := a.told + 1))
    else a
  }

  ghost function Asks(cfg: ZapConfig, v: Viewer, ds: seq<Doing>, k: nat): Ask
    requires Zapping(cfg) && SlotInv(v) && k < MAX_GROUPS
  {
    if ds == [] then Nothing
    else AskNext(cfg, Watch(cfg, v, ds[..|ds| - 1]), ds[|ds| - 1], k, Asks(cfg, v, ds[..|ds| - 1], k))
  }

  // What is left to announce, that the group does not settle before, and that the first
  // announcement stays pending.
  predicate Announces(a: Ask, g: Group) {
    a.Ask? ==>
      && g.robustness == (if a.told < a.times then a.times - a.told else 0)
      && (if a.leaving then g.state.Leaving? || g.state.Off? else g.state.Joining? || g.state.Active?)
      && (a.told < a.times ==> if a.leaving then g.state.Leaving? else g.state.Joining?)
      && (a.told == 0 && a.times > 0 ==> g.send)
  }

  lemma AnnouncesNext(cfg: ZapConfig, v: Viewer, d: Doing, k: nat, a: Ask)
    requires cfg.groups > 0 && SlotInv(v) && k < MAX_GROUPS && Announces(a, v.groups[k])
    ensures Sized(Act(cfg, v, d)) && Announces(AskNext(cfg, v, d, k, a), Act(cfg, v, d).groups[k])
  {
    hide Act, Room, Watching, SlotInv;
    SlotsSized(v);
    SlotBecomes(cfg, v, d, k);
  }

  // Every join and every leave is announced as often as the robustness said when it was
  // made, in every run: until then the group neither settles nor is forgotten, and the
  // first announcement waits for a report that has room for it.
  lemma {:induction false} Announcements(cfg: ZapConfig, v: Viewer, ds: seq<Doing>, k: nat)
    requires Zapping(cfg) && SlotInv(v) && k < MAX_GROUPS
    ensures Announces(Asks(cfg, v, ds, k), Watch(cfg, v, ds).groups[k])
  {
    hide Act, AskNext, Announces, SlotInv;
    SlotsSized(v);
    if ds == [] {
      NothingAsked(v.groups[k]);
    } else {
      var n := |ds| - 1;
      Announcements(cfg, v, ds[..n], k);
      AnnouncesNext(cfg, Watch(cfg, v, ds[..n]), ds[n], k, Asks(cfg, v, ds[..n], k));
    }
  }

  lemma NothingAsked(g: Group)
    ensures Announces(Nothing, g)
  {
  }

  // The last robustness value that a query carried, which is never zero.
  function Robustness(initial: nat, ds: seq<Doing>): nat {
    if ds == [] then initial
    else if ds[|ds| - 1].DoQuery? && ds[|ds| - 1].robustness != 0 then ds[|ds| - 1].robustness
    else Robustness(initial, ds[..|ds| - 1])
  }

  lemma RobustnessNext(cfg: ZapConfig, v: Viewer, d: Doing)
    requires cfg.groups > 0 && Sized(v)
    ensures Act(cfg, v, d).robustness == if d.DoQuery? && d.robustness != 0 then d.robustness else v.robustness
  {
    hide Judge, Switch, Watching, RxMc, Report;
    if d.DoZap? && v.joined.Some? && v.leaved.Some? {
      ZapRobustness(cfg, WakeUp(v), v.joined.value, v.leaved.value, d.on);
    } else if d.DoRx? {
      RxRobustness(v, MAX_GROUPS, d.dst, d.now, d.seqNo);
    }
  }

  lemma ZapRobustness(cfg: ZapConfig, v: Viewer, j: nat, l: nat, on: bool)
    requires cfg.groups > 0 && Sized(v) && j < |v.groups| && l < |v.groups|
    ensures var w := Judge(cfg, v, j).0;
      |w.groups| == |v.groups| && w.robustness == v.robustness && Switch(cfg, w, j, l, on).robustness == v.robustness
  {
    hide Delay, Measure, Classify, NextGroup, LeaveDelay;
  }

  lemma {:induction false} RxRobustness(v: Viewer, n: nat, dst: nat, now: Time, seqNo: Option<nat>)
    requires n <= |v.groups|
    ensures RxMc(v, n, dst, now, seqNo).robustness == v.robustness
  {
    hide Lost, NewGroupSeen;
    if n > 0 {
      RxRobustness(v, n - 1, dst, now, seqNo);
    }
  }

  lemma {:induction false} RobustnessHeard(cfg: ZapConfig, v: Viewer, ds: seq<Doing>)
    requires Zapping(cfg) && SlotInv(v)
    ensures Watch(cfg, v, ds).robustness == Robustness(v.robustness, ds)
    ensures v.robustness > 0 ==> Watch(cfg, v, ds).robustness > 0
  {
    hide Act, SlotInv;
    if ds != [] {
      var n := |ds| - 1;
      RobustnessHeard(cfg, v, ds[..n]);
      SlotsSized(Watch(cfg, v, ds[..n]));
      RobustnessNext(cfg, Watch(cfg, v, ds[..n]), ds[n]);
    }
  }

  // The robustness timer asks for the next announcement, or settles the group.
  lemma TimerRepeats(cfg: ZapConfig, v: Viewer, k: nat, a: Ask)
    requires cfg.groups > 0 && SlotInv(v) && k < MAX_GROUPS && a.Ask? && Announces(a, v.groups[k])
    ensures var h := Act(cfg, v, DoTimeout(true)).groups[k];
      && (a.told < a.times ==> Due(h))
      && (a.told >= a.times ==> if a.leaving then h.state.Off? else h.state.Active?)
  {
    hide Act, Room;
    SlotBecomes(cfg, v, DoTimeout(true), k);
  }

  ghost predicate Disturbs(cfg: ZapConfig, v: Viewer, d: Doing, k: nat)
    requires Sized(v) && k < MAX_GROUPS
  {
    Enters(cfg, v, d, k) || Empties(cfg, d, k) || Quits(cfg, v, d, k) || Takes(v, d, k)
  }

  ghost predicate DisturbsAt(cfg: ZapConfig, v: Viewer, ds: seq<Doing>, k: nat, n: nat)
    requires Zapping(cfg) && SlotInv(v) && k < MAX_GROUPS && n < |ds|
  {
    Disturbs(cfg, Watch(cfg, v, ds[..n]), ds[n], k)
  }

  lemma {:induction false} AskStays(cfg: ZapConfig, v: Viewer, ds: seq<Doing>, k: nat, m: nat, n: nat)
    requires Zapping(cfg) && SlotInv(v) && k < MAX_GROUPS && m <= n <= |ds|
    requires forall i :: m <= i < n ==> !DisturbsAt(cfg, v, ds, k, i)
    ensures Asks(cfg, v, ds[..n], k) == Asks(cfg, v, ds[..m], k)
  {
    hide Act, Enters, Quits, Takes, Empties, SlotInv, Watch;
    if m < n {
      AskStays(cfg, v, ds, k, m, n - 1);
      assert ds[..n][..n - 1] == ds[..n - 1];
      assert !DisturbsAt(cfg, v, ds, k, n - 1);
    }
  }

  // A group that is left is reported as left by the next report that has room for it.
  // Event m leaves it, event n is a report, and between them the slot is not used again
  // and no report takes it.
  lemma LeaveIsReported(cfg: ZapConfig, v: Viewer, ds: seq<Doing>, k: nat, m: nat, n: nat)
    requires Zapping(cfg) && SlotInv(v) && k < MAX_GROUPS && m < n < |ds|
    requires v.robustness > 0 && Quits(cfg, Watch(cfg, v, ds[..m]), ds[m], k)
    requires forall i :: m < i < n ==> !DisturbsAt(cfg, v, ds, k, i)
    requires ds[n].DoReport? && Room(Watch(cfg, v, ds[..n]).groups, ds[n].version, ds[n].combined, k)
    ensures var g := Watch(cfg, v, ds[..n]).groups[k];
      && g.state.Leaving? && g.address == Watch(cfg, v, ds[..m]).groups[k].address
      && Watch(cfg, v, ds[..n + 1]).groups[k] == Taken(ds[n].version, g, ds[n].now)
  {
    hide Act, Taken, Room, SlotInv, Watching, Watch;
    RobustnessHeard(cfg, v, ds[..m]);
    assert ds[..m + 1][..m] == ds[..m];
    AskLeaves(cfg, Watch(cfg, v, ds[..m]), ds[m], k, Asks(cfg, v, ds[..m], k));
    AskStays(cfg, v, ds, k, m + 1, n);
    Announcements(cfg, v, ds[..n], k);
    AddressStays(cfg, v, ds, k, m, n);
    WatchNext(cfg, v, ds, n);
    SlotBecomes(cfg, Watch(cfg, v, ds[..n]), ds[n], k);
  }

  lemma WatchNext(cfg: ZapConfig, v: Viewer, ds: seq<Doing>, n: nat)
    requires Zapping(cfg) && SlotInv(v) && n < |ds|
    ensures Watch(cfg, v, ds[..n + 1]) == Act(cfg, Watch(cfg, v, ds[..n]), ds[n])
  {
    hide Act, SlotInv;
    assert ds[..n + 1][..n] == ds[..n];
  }

  lemma AskLeaves(cfg: ZapConfig, v: Viewer, d: Doing, k: nat, a: Ask)
    requires SlotInv(v) && k < MAX_GROUPS && Quits(cfg, v, d, k)
    ensures AskNext(cfg, v, d, k, a) == Ask(true, v.robustness, 0)
  {
  }

  lemma {:induction false} AddressStays(cfg: ZapConfig, v: Viewer, ds: seq<Doing>, k: nat, m: nat, n: nat)
    requires Zapping(cfg) && SlotInv(v) && k < MAX_GROUPS && m < n <= |ds|
    requires Quits(cfg, Watch(cfg, v, ds[..m]), ds[m], k) && forall i :: m < i < n ==> !DisturbsAt(cfg, v, ds, k, i)
    ensures Watch(cfg, v, ds[..n]).groups[k].address == Watch(cfg, v, ds[..m]).groups[k].address
  {
    hide Act, SlotInv, Watch, Watching, Room;
    WatchNext(cfg, v, ds, n - 1);
    SlotBecomes(cfg, Watch(cfg, v, ds[..n - 1]), ds[n - 1], k);
    SlotsSized(Watch(cfg, v, ds[..n - 1]));
    if m < n - 1 {
      AddressStays(cfg, v, ds, k, m, n - 1);
      assert !DisturbsAt(cfg, v, ds, k, n - 1);
    }
  }
}
