/**
 Runs of the zapping automaton: the two slots never get mixed up, and the groups
 are joined in rotation, across pauses of zapping.
 */
module ZappingRuns {
  import opened Types
  import opened ZappingSpec

  // ---- The rotation law

  function Address(cfg: ZapConfig, i: nat): nat {
    cfg.base + i * cfg.iter
  }

  lemma AddressInRange(cfg: ZapConfig, i: nat)
    requires Configured(cfg) && i < cfg.groups
    ensures Address(cfg, i) <= Address(cfg, cfg.groups - 1) == GroupMax(cfg) < WORD
    ensures i + 1 < cfg.groups ==> Address(cfg, i) + cfg.iter == Address(cfg, i + 1)
  {
    Product(i, cfg.groups - 1, cfg.iter);
    Product(i, i + 1, cfg.iter);
  }

  lemma Product(i: nat, j: nat, n: nat)
    requires i <= j
    ensures j * n == i * n + (j - i) * n >= i * n
  {
  }

  // What happens at the last group: the sum has to leave the 32-bit range
  // above the last group, or wrap exactly onto the first.
  predicate Wraps(cfg: ZapConfig) {
    Address(cfg, cfg.groups) < WORD || cfg.groups * cfg.iter == WORD
  }

  lemma SuccessorStep(cfg: ZapConfig, i: nat)
    requires Configured(cfg) && i < cfg.groups
    ensures i + 1 < cfg.groups ==> NextGroup(cfg, Address(cfg, i)) == Address(cfg, i + 1)
    ensures i + 1 == cfg.groups ==> (NextGroup(cfg, Address(cfg, i)) == cfg.base <==> Wraps(cfg))
  {
    AddressInRange(cfg, i);
    if i + 1 < cfg.groups {
      AddressInRange(cfg, i + 1);
    } else {
      assert Address(cfg, i) + cfg.iter == Address(cfg, cfg.groups) by {
        assert i * cfg.iter + cfg.iter == (i + 1) * cfg.iter;
      }
      hide Address;
      LastStep(cfg, Address(cfg, i));
    }
  }

  lemma LastStep(cfg: ZapConfig, last: nat)
    requires Configured(cfg) && last == GroupMax(cfg) == Address(cfg, cfg.groups - 1)
    requires last + cfg.iter == Address(cfg, cfg.groups)
    ensures NextGroup(cfg, last) == cfg.base <==> Wraps(cfg)
  {
    var sum := last + cfg.iter;
    assert sum < 2 * WORD;
    if sum >= WORD {
      assert sum % WORD == sum - WORD;
    }
  }

  predicate Follows(cfg: ZapConfig, i: nat)
    requires cfg.groups > 0
  {
    NextGroup(cfg, Address(cfg, i)) == Address(cfg, (i + 1) % cfg.groups)
  }

  lemma FollowsStep(cfg: ZapConfig, i: nat)
    requires Configured(cfg) && i < cfg.groups
    ensures Follows(cfg, i) <==> i + 1 < cfg.groups || Wraps(cfg)
  {
    hide NextGroup, Wraps, Address, Configured;
    SuccessorStep(cfg, i);
    NextIndex(i, cfg.groups);
    AddressZero(cfg);
  }

  lemma NextIndex(i: nat, n: nat)
    requires i < n
    ensures (i + 1) % n == if i + 1 < n then i + 1 else 0
  {
  }

  lemma AddressZero(cfg: ZapConfig)
    ensures Address(cfg, 0) == cfg.base
  {
  }

  // Stepping from group to group follows the rotation at every position exactly
  // when the step after the last group does not wrap around 32 bits into the range.
  lemma RotationIff(cfg: ZapConfig)
    requires Configured(cfg)
    ensures (forall i :: 0 <= i < cfg.groups ==> Follows(cfg, i)) <==> Wraps(cfg)
  {
    hide Follows, Wraps;
    forall i | 0 <= i < cfg.groups ensures Follows(cfg, i) <==> i + 1 < cfg.groups || Wraps(cfg) {
      FollowsStep(cfg, i);
    }
    assert Follows(cfg, cfg.groups - 1) <==> Wraps(cfg);
  }

  // Two groups 16.0.0.0 apart from 224.0.0.0: after the last one comes 0.0.0.0.
  lemma WrapsToZero(cfg: ZapConfig)
    requires cfg.base == 0xe000_0000 && cfg.iter == 0x1000_0000 && cfg.groups == 2 && cfg.interval > 0
    ensures Configured(cfg) && !Wraps(cfg) && NextGroup(cfg, Address(cfg, 1)) == 0
  {
  }

  // ---- Events

  datatype Doing =
    | DoJoin(up: bool, start: nat, zaps: nat)
    | DoZap(up: bool, on: bool, now: Time)
    | DoTimeout(up: bool)
    | DoReport(version: Version, combined: bool, now: Time)
    | DoQuery(address: nat, robustness: nat)
    | DoRx(dst: nat, now: Time, seqNo: Option<nat>)
    | DoReset

  function Act(cfg: ZapConfig, v: Viewer, d: Doing): Viewer
    requires Sized(v) && cfg.groups > 0
  {
    match d
    case DoJoin(up, start, zaps) => InitialJoin(cfg, v, up, start, zaps)
    case DoZap(up, on, now) => Zap(cfg, v, up, on, now)
    case DoTimeout(up) => IgmpTimeout(v, up)
    case DoReport(version, combined, now) => v.(groups := Report(v.groups, 0, version, combined, false, false, now))
    case DoQuery(address, robustness) => Query(v, address, robustness)
    case DoRx(dst, now, seqNo) => RxMc(v, MAX_GROUPS, dst, now, seqNo)
    case DoReset => Reset(v)
  }

  // ---- What reports and traffic leave alone

  // What every event but a join or a zap keeps of a group.
  predicate Kept(g: Group, h: Group) {
    g.address == h.address && g.measured == h.measured && (Wanted(g.state) <==> Wanted(h.state))
  }

  lemma ReportKeeps(gs: seq<Group>, i: nat, version: Version, combined: bool, isJoin: bool, isLeave: bool, now: Time, k: nat)
    requires k < |gs|
    ensures Kept(gs[k], Report(gs, i, version, combined, isJoin, isLeave, now)[k])
    decreases |gs| - i
  {
    if i < |gs| {
      var g := gs[i];
      var leaving := g.state.Leaving?;
      if !g.send || g.state.Off? || (!combined && (if leaving then isJoin else isLeave)) {
        ReportKeeps(gs, i + 1, version, combined, isJoin, isLeave, now, k);
      } else if version.V3? {
        ReportKeeps(gs[i := Settled(Reported(g, now))], i + 1, version, combined,
                    isJoin || (!leaving && !isLeave), isLeave || (leaving && !isJoin), now, k);
      }
    }
  }

  lemma {:induction false} RxKeeps(v: Viewer, n: nat, dst: nat, now: Time, seqNo: Option<nat>, k: nat)
    requires n <= |v.groups| && k < |v.groups|
    ensures var w := RxMc(v, n, dst, now, seqNo);
      && Kept(v.groups[k], w.groups[k]) && w.joined == v.joined && w.leaved == v.leaved
      && w.zaps == v.zaps && w.viewStart == v.viewStart
      && w.join == v.join && w.late == v.late && w.missed == v.missed
  {
    if n > 0 {
      hide RxGroup, Kept;
      var w := RxMc(v, n - 1, dst, now, seqNo);
      RxKeeps(v, n - 1, dst, now, seqNo, k);
      RxGroupKeeps(w, n - 1, dst, now, seqNo, k);
      KeptChains();
    }
  }

  lemma RxGroupKeeps(v: Viewer, i: nat, dst: nat, now: Time, seqNo: Option<nat>, k: nat)
    requires i < |v.groups| && k < |v.groups|
    ensures var w := RxGroup(v, i, dst, now, seqNo);
      && Kept(v.groups[k], w.groups[k]) && w.joined == v.joined && w.leaved == v.leaved
      && w.zaps == v.zaps && w.viewStart == v.viewStart
      && w.join == v.join && w.late == v.late && w.missed == v.missed
  {
    hide Lost;
  }

  lemma KeptChains()
    ensures forall g :: Kept(g, g)
    ensures forall f, g, h :: Kept(f, g) && Kept(g, h) ==> Kept(f, h)
  {
  }

  // Events that neither join, zap nor reset.
  predicate Passive(d: Doing) {
    !d.DoJoin? && !d.DoZap? && !d.DoReset?
  }

  lemma PassiveKeeps(cfg: ZapConfig, v: Viewer, d: Doing, k: nat)
    requires Sized(v) && cfg.groups > 0 && Passive(d) && k < MAX_GROUPS
    ensures var w := Act(cfg, v, d);
      && Sized(w) && Kept(v.groups[k], w.groups[k]) && w.joined == v.joined && w.leaved == v.leaved
      && w.zaps == v.zaps && w.viewStart == v.viewStart
      && w.join == v.join && w.late == v.late && w.missed == v.missed
  {
    match d
    case DoTimeout(_) =>
    case DoReport(version, combined, now) => ReportKeeps(v.groups, 0, version, combined, false, false, now, k);
    case DoQuery(_, _) =>
    case DoRx(dst, now, seqNo) => RxKeeps(v, MAX_GROUPS, dst, now, seqNo, k);
  }

  // ---- The slots

  // The joined and the leaved group are the first two slots, in some order, or
  // both unset, and at most one of the two slots is wanted.
  ghost predicate SlotInv(v: Viewer) {
    && Sized(v)
    && (|| (v.joined == None && v.leaved == None)
        || (v.joined == Some(0) && v.leaved == Some(1))
        || (v.joined == Some(1) && v.leaved == Some(0)))
    && !(Wanted(v.groups[0].state) && Wanted(v.groups[1].state))
    && (v.leaved.Some? ==> !Wanted(v.groups[v.leaved.value].state))
  }

  lemma JudgeKeeps(cfg: ZapConfig, v: Viewer, j: nat, k: nat)
    requires j < |v.groups| && k < |v.groups|
    ensures var w := Judge(cfg, v, j).0;
      && |w.groups| == |v.groups| && w.joined == v.joined && w.leaved == v.leaved
      && w.groups[k] == v.groups[k].(measured := w.groups[k].measured)
      && (k != j ==> w.groups[k] == v.groups[k])
  {
    hide Delay, Measure, Classify;
  }

  lemma SwitchKeepsSlots(cfg: ZapConfig, v: Viewer, on: bool)
    requires cfg.groups > 0 && SlotInv(v) && v.joined.Some?
    ensures SlotInv(Switch(cfg, v, v.joined.value, v.leaved.value, on))
  {
    hide NextGroup, LeaveDelay;
  }

  lemma ZapKeepsSlots(cfg: ZapConfig, v: Viewer, up: bool, on: bool, now: Time)
    requires cfg.groups > 0 && SlotInv(v)
    ensures SlotInv(Zap(cfg, v, up, on, now))
  {
    hide Judge, Switch, Watching;
    if v.joined.Some? {
      var (w, judged) := Judge(cfg, WakeUp(v), v.joined.value);
      JudgeKeeps(cfg, WakeUp(v), v.joined.value, 0);
      JudgeKeeps(cfg, WakeUp(v), v.joined.value, 1);
      SwitchKeepsSlots(cfg, w, on);
    }
  }

  lemma SlotStep(cfg: ZapConfig, v: Viewer, d: Doing)
    requires 1 < cfg.groups && cfg.interval > 0 && SlotInv(v)
    ensures SlotInv(Act(cfg, v, d))
  {
    if Passive(d) {
      hide Act, Kept;
      PassiveKeeps(cfg, v, d, 0);
      PassiveKeeps(cfg, v, d, 1);
      KeptWanted();
    } else if d.DoZap? {
      hide Zap;
      ZapKeepsSlots(cfg, v, d.up, d.on, d.now);
    }
  }

  lemma KeptWanted()
    ensures forall g, h :: Kept(g, h) ==> (Wanted(g.state) <==> Wanted(h.state))
  {
  }

  ghost function Watch(cfg: ZapConfig, v: Viewer, ds: seq<Doing>): (w: Viewer)
    requires 1 < cfg.groups && cfg.interval > 0 && SlotInv(v)
    ensures SlotInv(w)
  {
    if ds == [] then v
    else
      var w := Watch(cfg, v, ds[..|ds| - 1]);
      SlotStep(cfg, w, ds[|ds| - 1]);
      Act(cfg, w, ds[|ds| - 1])
  }

  // In every run the slots stay apart.
  lemma SlotsStayApart(cfg: ZapConfig, v: Viewer, ds: seq<Doing>)
    requires 1 < cfg.groups && cfg.interval > 0 && SlotInv(v)
    ensures var w := Watch(cfg, v, ds);
      && (w.joined.Some? ==> w.leaved.Some? && {w.joined.value, w.leaved.value} == {0, 1})
      && !(Wanted(w.groups[0].state) && Wanted(w.groups[1].state))
  {
    assert SlotInv(Watch(cfg, v, ds));
  }

  // ---- The rotation over runs

  // The group a tick of the zapping timer joins, if any.
  ghost function JoinedBy(cfg: ZapConfig, v: Viewer, d: Doing): seq<nat>
    requires cfg.groups > 0 && SlotInv(v)
  {
    if !d.DoZap? then []
    else
      var w := Act(cfg, v, d);
      if w.joined == v.joined || w.joined.None? || w.joined.value >= |w.groups| then [] else [w.groups[w.joined.value].address]
  }

  ghost function Joins(cfg: ZapConfig, v: Viewer, ds: seq<Doing>): seq<nat>
    requires 1 < cfg.groups && cfg.interval > 0 && SlotInv(v)
  {
    if ds == [] then []
    else Joins(cfg, v, ds[..|ds| - 1]) + JoinedBy(cfg, Watch(cfg, v, ds[..|ds| - 1]), ds[|ds| - 1])
  }

  // Group i is joined, and if a zap has happened the one before it was left.
  ghost predicate Turn(cfg: ZapConfig, v: Viewer, i: nat, zapped: bool) {
    && SlotInv(v) && v.joined.Some?
    && v.groups[v.joined.value].address == Address(cfg, i)
    && (zapped ==> exists p: nat :: p < cfg.groups && Precedes(cfg, p, i) && v.groups[v.leaved.value].address == Address(cfg, p))
  }

  predicate Precedes(cfg: ZapConfig, p: nat, i: nat) {
    cfg.groups > 0 && (p + 1) % cfg.groups == i
  }

  lemma SwitchTurns(cfg: ZapConfig, v: Viewer, i: nat, zapped: bool, on: bool)
    requires Configured(cfg) && Wraps(cfg) && i < cfg.groups && Turn(cfg, v, i, zapped)
    ensures var w := Switch(cfg, v, v.joined.value, v.leaved.value, on);
      && (on ==> w.joined == v.leaved && Turn(cfg, w, (i + 1) % cfg.groups, true))
      && (!on ==> w.joined == v.joined && Turn(cfg, w, i, zapped))
  {
    hide LeaveDelay, NextGroup, Wraps, Address, Configured;
    var w := Switch(cfg, v, v.joined.value, v.leaved.value, on);
    SwitchKeepsSlots(cfg, v, on);
    FollowsStep(cfg, i);
    if on {
      assert Precedes(cfg, i, (i + 1) % cfg.groups) && w.groups[w.leaved.value].address == Address(cfg, i);
    }
  }

  lemma ZapTurns(cfg: ZapConfig, v: Viewer, i: nat, zapped: bool, up: bool, on: bool, now: Time)
    requires Configured(cfg) && Wraps(cfg) && i < cfg.groups && Turn(cfg, v, i, zapped)
    ensures var w := Zap(cfg, v, up, on, now);
      && (w.joined == v.joined ==> Turn(cfg, w, i, zapped))
      && (w.joined != v.joined ==> Turn(cfg, w, (i + 1) % cfg.groups, true))
  {
    hide Judge, Switch, Watching, Wraps, Address, Configured, Precedes;
    var (w, judged) := Judge(cfg, WakeUp(v), v.joined.value);
    JudgeKeeps(cfg, WakeUp(v), v.joined.value, 0);
    JudgeKeeps(cfg, WakeUp(v), v.joined.value, 1);
    SwitchTurns(cfg, w, i, zapped, on);
  }

  lemma TurnStep(cfg: ZapConfig, v: Viewer, d: Doing, i: nat, zapped: bool)
    requires Configured(cfg) && Wraps(cfg) && i < cfg.groups && Turn(cfg, v, i, zapped) && !d.DoJoin? && !d.DoReset?
    ensures var w := Act(cfg, v, d);
      if JoinedBy(cfg, v, d) == [] then Turn(cfg, w, i, zapped)
      else JoinedBy(cfg, v, d) == [Address(cfg, (i + 1) % cfg.groups)] && Turn(cfg, w, (i + 1) % cfg.groups, true)
  {
    hide Wraps, Address, Precedes, Zap;
    if d.DoZap? {
      ZapTurns(cfg, v, i, zapped, d.up, d.on, d.now);
    } else {
      hide Act;
      SlotStep(cfg, v, d);
      PassiveKeeps(cfg, v, d, 0);
      PassiveKeeps(cfg, v, d, 1);
    }
  }

  ghost predicate Undisturbed(ds: seq<Doing>) {
    forall k :: 0 <= k < |ds| ==> !ds[k].DoJoin? && !ds[k].DoReset?
  }

  // The groups in rotation after group i.
  predicate InRotation(cfg: ZapConfig, i: nat, js: seq<nat>)
    requires cfg.groups > 0
  {
    forall n :: 0 <= n < |js| ==> js[n] == Address(cfg, Position(i, n + 1, cfg.groups))
  }

  // The index of the group that is joined k zaps after group s.
  function Position(s: nat, k: nat, groups: nat): (p: nat)
    requires groups > 0
    ensures p < groups
  {
    (s + k) % groups
  }

  lemma NextPosition(s: nat, k: nat, groups: nat)
    requires groups > 1
    ensures Position(s, k + 1, groups) == (Position(s, k, groups) + 1) % groups
  {
    Advanced(s + k, 1, groups);
    NextIndex(Position(s, k, groups), groups);
  }

  lemma FirstPosition(s: nat, groups: nat)
    requires s < groups
    ensures Position(s, 0, groups) == s
  {
  }

  lemma RotationExtends(cfg: ZapConfig, i: nat, js: seq<nat>, more: seq<nat>)
    requires cfg.groups > 1 && InRotation(cfg, i, js)
    requires more == [] || more == [Address(cfg, (Position(i, |js|, cfg.groups) + 1) % cfg.groups)]
    ensures InRotation(cfg, i, js + more)
    ensures more != [] ==> (Position(i, |js|, cfg.groups) + 1) % cfg.groups == Position(i, |js + more|, cfg.groups)
  {
    hide Address, Position;
    NextPosition(i, |js|, cfg.groups);
  }

  lemma {:induction false} RotationFrom(cfg: ZapConfig, v: Viewer, i: nat, ds: seq<Doing>)
    requires Configured(cfg) && Wraps(cfg) && i < cfg.groups && Turn(cfg, v, i, false) && Undisturbed(ds)
    ensures var js := Joins(cfg, v, ds);
      InRotation(cfg, i, js) && Turn(cfg, Watch(cfg, v, ds), Position(i, |js|, cfg.groups), js != [])
  {
    hide Act, JoinedBy, Turn, Wraps, Address, InRotation, Position, SlotInv;
    SlotOfTurn(cfg, v, i, false);
    if ds == [] {
      FirstPosition(i, cfg.groups);
      NoneJoined(cfg, i);
    } else {
      var m := |ds| - 1;
      RotationFrom(cfg, v, i, ds[..m]);
      var js := Joins(cfg, v, ds[..m]);
      var w := Watch(cfg, v, ds[..m]);
      TurnStep(cfg, w, ds[m], Position(i, |js|, cfg.groups), js != []);
      RotationExtends(cfg, i, js, JoinedBy(cfg, w, ds[m]));
    }
  }

  lemma NoneJoined(cfg: ZapConfig, i: nat)
    requires cfg.groups > 0
    ensures InRotation(cfg, i, [])
  {
  }

  lemma SlotOfTurn(cfg: ZapConfig, v: Viewer, i: nat, zapped: bool)
    requires Turn(cfg, v, i, zapped)
    ensures SlotInv(v)
  {
  }

  lemma {:induction false} AtLeast(d: nat, n: nat)
    requires d > 0
    ensures d * n >= n
  {
    if d > 1 {
      AtLeast(d - 1, n);
      assert d * n == (d - 1) * n + n;
    }
  }

  lemma ModUnique(a: nat, n: nat, q: nat, r: nat)
    requires n > 0 && a == q * n + r && r < n
    ensures a % n == r
  {
    var p := a / n;
    assert a == p * n + a % n;
    assert (q - p) * n == q * n - p * n && (p - q) * n == p * n - q * n;
    if p < q {
      AtLeast(q - p, n);
    } else if q < p {
      AtLeast(p - q, n);
    }
  }

  // From the initial join on, through any mixture of zapping ticks, stops and
  // resumptions, reports, queries and traffic: the n-th group joined is the n-th in
  // rotation after the first, and after a zap the two slots hold different groups.
  lemma Rotation(cfg: ZapConfig, v: Viewer, start: nat, zaps: nat, ds: seq<Doing>)
    requires Configured(cfg) && Wraps(cfg) && SlotInv(v) && Undisturbed(ds)
    ensures var w := InitialJoin(cfg, v, true, start, zaps);
      && SlotInv(w)
      && var js := Joins(cfg, w, ds);
      && var x := Watch(cfg, w, ds);
      && InRotation(cfg, start % cfg.groups, js)
      && x.joined.Some? && x.groups[x.joined.value].address == Address(cfg, Position(start % cfg.groups, |js|, cfg.groups))
      && (js != [] && cfg.iter > 0 ==> x.groups[0].address != x.groups[1].address)
  {
    var w := InitialJoin(cfg, v, true, start, zaps);
    var s := start % cfg.groups;
    FirstTurn(cfg, v, start, zaps);
    hide *;
    SlotOfTurn(cfg, w, s, false);
    SomeGroups(cfg);
    RotationFrom(cfg, w, s, ds);
    var js := Joins(cfg, w, ds);
    TurnMeans(cfg, Watch(cfg, w, ds), Position(s, |js|, cfg.groups), js != []);
  }

  lemma SomeGroups(cfg: ZapConfig)
    requires Configured(cfg)
    ensures 1 < cfg.groups && cfg.interval > 0
  {
  }

  lemma TurnMeans(cfg: ZapConfig, v: Viewer, i: nat, zapped: bool)
    requires 1 < cfg.groups && i < cfg.groups && Turn(cfg, v, i, zapped)
    ensures Sized(v) && v.joined.Some? && v.groups[v.joined.value].address == Address(cfg, i)
    ensures zapped && cfg.iter > 0 ==> v.groups[0].address != v.groups[1].address
  {
    hide Address;
    if zapped && cfg.iter > 0 {
      var p: nat :| p < cfg.groups && Precedes(cfg, p, i) && v.groups[v.leaved.value].address == Address(cfg, p);
      DifferentGroups(cfg, p, i);
    }
  }

  lemma FirstTurn(cfg: ZapConfig, v: Viewer, start: nat, zaps: nat)
    requires Configured(cfg) && SlotInv(v)
    ensures Turn(cfg, InitialJoin(cfg, v, true, start, zaps), start % cfg.groups, false)
  {
    var s := start % cfg.groups;
    AddressInRange(cfg, s);
    assert (cfg.base + s * cfg.iter) % WORD == Address(cfg, s);
  }

  lemma DifferentGroups(cfg: ZapConfig, p: nat, i: nat)
    requires 1 < cfg.groups && cfg.iter > 0 && p < cfg.groups && i < cfg.groups && Precedes(cfg, p, i)
    ensures Address(cfg, p) != Address(cfg, i)
  {
    NextIndex(p, cfg.groups);
    if p < i {
      Spread(cfg, p, i);
    } else {
      Spread(cfg, i, p);
    }
  }

  lemma Spread(cfg: ZapConfig, p: nat, i: nat)
    requires p < i
    ensures Address(cfg, p) + cfg.iter <= Address(cfg, i)
  {
    AtLeast(i - p, cfg.iter);
    assert (i - p) * cfg.iter == i * cfg.iter - p * cfg.iter;
  }

  // Any window of as many joins as there are groups contains each group exactly once.
  lemma WindowCovers(s: nat, first: nat, groups: nat, g: nat)
    requires g < groups
    ensures exists k :: first <= k < first + groups && Position(s, k, groups) == g
    ensures forall j, k :: first <= j < k < first + groups ==> Position(s, j, groups) != Position(s, k, groups)
  {
    var a := Position(s, first, groups);
    var k := first + (if g >= a then g - a else g - a + groups);
    Advanced(s + first, k - first, groups);
    assert Position(s, k, groups) == g;
    forall i, j | first <= i < j < first + groups ensures Position(s, i, groups) != Position(s, j, groups) {
      Advanced(s + i, j - i, groups);
    }
  }

  // So among the joins of a run, any such window joins every group, none twice.
  lemma JoinsVisitAll(cfg: ZapConfig, i: nat, js: seq<nat>, first: nat, g: nat)
    requires Configured(cfg) && InRotation(cfg, i, js) && first + cfg.groups <= |js| && g < cfg.groups
    ensures exists n :: first <= n < first + cfg.groups && js[n] == Address(cfg, g)
    ensures cfg.iter > 0 ==> forall m, n :: first <= m < n < first + cfg.groups ==> js[m] != js[n]
  {
    hide Address, Position;
    WindowCovers(i, first + 1, cfg.groups, g);
    var k :| first + 1 <= k < first + 1 + cfg.groups && Position(i, k, cfg.groups) == g;
    assert js[k - 1] == Address(cfg, Position(i, k - 1 + 1, cfg.groups));
    if cfg.iter > 0 {
      forall m, n | first <= m < n < first + cfg.groups ensures js[m] != js[n] {
        var a, b := Position(i, m + 1, cfg.groups), Position(i, n + 1, cfg.groups);
        if a < b {
          Spread(cfg, a, b);
        } else {
          Spread(cfg, b, a);
        }
      }
    }
  }

  // From the initial join on, any window of as many joins as there are groups joins
  // every group, and none twice when the step is not zero. The initial join counts.
  lemma EveryWindowVisitsAll(cfg: ZapConfig, v: Viewer, start: nat, zaps: nat, ds: seq<Doing>, first: nat, g: nat)
    requires Configured(cfg) && Wraps(cfg) && SlotInv(v) && Undisturbed(ds) && g < cfg.groups
    ensures SlotInv(InitialJoin(cfg, v, true, start, zaps))
    ensures var w := InitialJoin(cfg, v, true, start, zaps);
      var js := [w.groups[0].address] + Joins(cfg, w, ds);
      first + cfg.groups <= |js| ==>
        && (exists n :: first <= n < first + cfg.groups && js[n] == Address(cfg, g))
        && (cfg.iter > 0 ==> forall m, n :: first <= m < n < first + cfg.groups ==> js[m] != js[n])
  {
    var w := InitialJoin(cfg, v, true, start, zaps);
    var s := start % cfg.groups;
    FirstTurn(cfg, v, start, zaps);
    FirstAddress(cfg, v, start, zaps);
    hide Wraps, InitialJoin, Act, Turn, Address, Joins;
    SlotOfTurn(cfg, w, s, false);
    RotationFrom(cfg, w, s, ds);
    var js := [w.groups[0].address] + Joins(cfg, w, ds);
    var before := if s == 0 then cfg.groups - 1 else s - 1;
    StepBack(cfg, before, s, js);
    if first + cfg.groups <= |js| {
      JoinsVisitAll(cfg, before, js, first, g);
    }
  }

  lemma FirstAddress(cfg: ZapConfig, v: Viewer, start: nat, zaps: nat)
    requires Configured(cfg) && SlotInv(v)
    ensures |InitialJoin(cfg, v, true, start, zaps).groups| > 0
    ensures InitialJoin(cfg, v, true, start, zaps).groups[0].address == Address(cfg, start % cfg.groups)
  {
    var s := start % cfg.groups;
    AddressInRange(cfg, s);
    assert (cfg.base + s * cfg.iter) % WORD == Address(cfg, s);
  }

  // A rotation after group s, with group s in front, is a rotation after the group
  // before it.
  lemma StepBack(cfg: ZapConfig, before: nat, s: nat, js: seq<nat>)
    requires 1 < cfg.groups && s < cfg.groups && before == (if s == 0 then cfg.groups - 1 else s - 1)
    requires js != [] && js[0] == Address(cfg, s) && InRotation(cfg, s, js[1..])
    ensures InRotation(cfg, before, js)
  {
    hide Address;
    forall n | 0 <= n < |js| ensures js[n] == Address(cfg, Position(before, n + 1, cfg.groups)) {
      if n == 0 {
        NextIndex(before, cfg.groups);
      } else {
        assert js[n] == js[1..][n - 1];
        SamePosition(before, s, n, cfg.groups);
      }
    }
  }

  lemma SamePosition(before: nat, s: nat, n: nat, groups: nat)
    requires 1 < groups && s < groups && before == (if s == 0 then groups - 1 else s - 1)
    ensures Position(before, n + 1, groups) == Position(s, n, groups)
  {
    if s == 0 {
      assert before + n + 1 == n + groups;
      var q, r := n / groups, n % groups;
      assert n + groups == (q + 1) * groups + r;
      ModUnique(n + groups, groups, q + 1, r);
    }
  }

  lemma Advanced(a: nat, d: nat, n: nat)
    requires d < n
    ensures (a + d) % n == if a % n + d < n then a % n + d else a % n + d - n
  {
    assert a == a / n * n + a % n;
    if a % n + d < n {
      ModUnique(a + d, n, a / n, a % n + d);
    } else {
      assert (a / n + 1) * n == a / n * n + n;
      ModUnique(a + d, n, a / n + 1, a % n + d - n);
    }
  }
}
