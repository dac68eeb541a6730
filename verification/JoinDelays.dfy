/**
 The join-delay statistics against the history of what was measured.
 */
module JoinDelays {
  import opened Types
  import opened ZappingSpec
  import opened ZappingRuns

  // ---- One delay

  function CeilDiv(a: nat, b: nat): nat
    requires b > 0
  {
    (a + b - 1) / b
  }

  function Later(to: Time, from: Time): nat {
    if Nanos(to) < Nanos(from) then 0 else Nanos(to) - Nanos(from)
  }

  lemma TimeSubExact(x: Time, y: Time)
    requires IsTime(x) && IsTime(y)
    ensures IsTime(TimeSub(x, y)) && Nanos(TimeSub(x, y)) == Later(x, y)
  {
  }

  lemma MillisRoundUp(t: Time)
    requires IsTime(t)
    ensures t.sec * 1000 + t.nsec / MILLI + (if t.nsec % MILLI != 0 then 1 else 0) == CeilDiv(Nanos(t), MILLI)
  {
    var ms := t.nsec / MILLI;
    var r := t.nsec % MILLI;
    assert Nanos(t) == (t.sec * 1000 + ms) * MILLI + r;
  }

  // The delay recorded for a join is the time from the report to the first packet
  // in milliseconds, rounded up and at least one; it wraps only after 49 days.
  lemma DelayMeans(from: Time, to: Time)
    requires IsTime(from) && IsTime(to)
    ensures 1 <= Delay(from, to) < WORD
    ensures var ms := CeilDiv(Later(to, from), MILLI);
      ms < WORD ==> Delay(from, to) == if ms == 0 then 1 else ms
  {
    TimeSubExact(to, from);
    MillisRoundUp(TimeSub(to, from));
  }

  // ---- Statistics and history

  function Sum(h: seq<nat>): nat {
    if h == [] then 0 else Sum(h[..|h| - 1]) + h[|h| - 1]
  }

  ghost predicate Agrees(d: Delays, h: seq<nat>) {
    && d.sum == Sum(h) && d.count == |h|
    && (h == [] ==> d.min == d.max == d.avg == 0)
    && (h != [] ==>
          && d.min in h && d.max in h && (forall x :: x in h ==> d.min <= x <= d.max)
          && d.avg == Sum(h) / |h|
          && 1 <= d.min <= d.avg <= d.max)
  }

  lemma Scale(n: nat, a: nat, b: nat)
    requires a <= b || n == 0
    ensures n * a <= n * b && (n + 1) * a == n * a + a && (n + 1) * b == n * b + b
  {
    if a <= b {
      assert n * b == n * a + n * (b - a);
    }
  }

  // A new value keeps the sum between count times the minimum and the maximum.
  lemma SumBounds(n: nat, sum: nat, x: nat, lo: nat, hi: nat, low: nat, high: nat)
    requires n * lo <= sum <= n * hi && low <= x <= high && (n == 0 || (low <= lo && hi <= high))
    ensures (n + 1) * low <= sum + x <= (n + 1) * high
  {
    Scale(n, low, lo);
    Scale(n, hi, high);
  }

  lemma Average(sum: nat, n: nat, lo: nat, hi: nat)
    requires n > 0 && n * lo <= sum <= n * hi
    ensures lo <= sum / n <= hi
  {
    var q := sum / n;
    assert sum == n * q + sum % n;
    assert n * (q + 1) == n * q + n && n * (hi + 1) == n * hi + n;
    if q < lo {
      Scale(n, q + 1, lo);
    } else if hi < q {
      Scale(n, hi + 1, q);
    }
  }

  ghost predicate Bounded(d: Delays) {
    && d.count * d.min <= d.sum <= d.count * d.max && d.max < WORD
    && (d.count > 0 ==> 1 <= d.min <= d.max)
    && (d.count == 0 ==> d.min == d.max == 0)
  }

  // As long as the count fits, so does the sum.
  lemma SumFits(n: nat, sum: nat, hi: nat, x: nat)
    requires n + 1 < WORD && sum <= n * hi && hi < WORD && x < WORD
    ensures sum + x < LONG
  {
    Scale(n, hi, WORD);
  }

  lemma MeasureBounds(d: Delays, delay: nat)
    requires Bounded(d) && 1 <= delay < WORD && d.count + 1 < WORD
    ensures var e := Measure(d, delay);
      Bounded(e) && e.min <= e.avg <= e.max && e.sum == d.sum + delay && e.count == d.count + 1 && e.avg == e.sum / e.count
  {
    hide Measure, Bounded;
    var e := Measure(d, delay);
    BoundedSum(d);
    SumFits(d.count, d.sum, d.max, delay);
    Unwrapped(d, delay);
    BoundedMin(d);
    SumBounds(d.count, d.sum, delay, d.min, d.max, e.min, e.max);
    Average(e.sum, e.count, e.min, e.max);
    MakeBounded(e);
  }

  lemma BoundedSum(d: Delays)
    requires Bounded(d)
    ensures d.count * d.min <= d.sum <= d.count * d.max && d.max < WORD
  {
  }

  lemma MakeBounded(d: Delays)
    requires d.count * d.min <= d.sum <= d.count * d.max && d.max < WORD && d.count > 0 && 1 <= d.min <= d.max
    ensures Bounded(d)
  {
  }

  lemma Unwrapped(d: Delays, delay: nat)
    requires d.sum + delay < LONG && d.count + 1 < WORD
    ensures Measure(d, delay)
         == Delays(d.sum + delay, d.count + 1, if d.min == 0 || delay < d.min then delay else d.min,
                   if delay > d.max then delay else d.max, (d.sum + delay) / (d.count + 1))
  {
    assert (d.sum + delay) % LONG == d.sum + delay && (d.count + 1) % WORD == d.count + 1;
  }

  // Recording one more delay keeps the statistics those of the history.
  lemma MeasureAgrees(d: Delays, h: seq<nat>, delay: nat)
    requires Agrees(d, h) && Bounded(d) && 1 <= delay < WORD && |h| + 1 < WORD
    ensures Agrees(Measure(d, delay), h + [delay]) && Bounded(Measure(d, delay))
  {
    hide Bounded;
    MeasureBounds(d, delay);
    BoundedMin(d);
    assert (h + [delay])[..|h|] == h;
    forall x ensures x in h + [delay] <==> x in h || x == delay {
    }
    assert delay in h + [delay];
  }

  // The measurement after 2^32 - 1 others makes the count zero, by which the program
  // then divides.
  lemma CountWraps(d: Delays, h: seq<nat>, delay: nat)
    requires Agrees(d, h)
    ensures |h| + 1 <= WORD ==> (Measure(d, delay).count == 0 <==> |h| + 1 == WORD)
  {
  }

  lemma BoundedMin(d: Delays)
    requires Bounded(d)
    ensures d.count > 0 ==> 1 <= d.min <= d.max
    ensures d.count == 0 ==> d.min == d.max == 0
  {
  }

  // ---- Runs

  // The delay that an event records, if any.
  ghost function MeasuredBy(cfg: ZapConfig, v: Viewer, d: Doing): seq<nat>
    requires Sized(v) && cfg.groups > 0
  {
    if d.DoZap? && v.joined.Some? && v.leaved.Some? && d.up && !Watching(cfg, v, d.now)
       && v.groups[v.joined.value].firstRx.sec != 0 && !v.groups[v.joined.value].measured
    then [Delay(v.groups[v.joined.value].joinTx, v.groups[v.joined.value].firstRx)]
    else []
  }

  ghost function Measured(cfg: ZapConfig, v: Viewer, ds: seq<Doing>): seq<nat>
    requires 1 < cfg.groups && cfg.interval > 0 && SlotInv(v)
  {
    if ds == [] then []
    else Measured(cfg, v, ds[..|ds| - 1]) + MeasuredBy(cfg, Watch(cfg, v, ds[..|ds| - 1]), ds[|ds| - 1])
  }

  // Only measuring touches the statistics, and a measured group is not measured again.
  lemma MeasureStep(cfg: ZapConfig, v: Viewer, d: Doing)
    requires 1 < cfg.groups && cfg.interval > 0 && SlotInv(v) && !d.DoReset?
    ensures var w := Act(cfg, v, d);
      var m := MeasuredBy(cfg, v, d);
      && w.join == (if m == [] then v.join else Measure(v.join, m[0]))
      && w.late == (if m == [] then v.late else Classify(cfg, v.late, m[0]))
      && (m != [] ==> !v.groups[v.joined.value].measured)
  {
    hide Delay, Measure, Classify, NextGroup, Watching, Switch;
    if Passive(d) {
      hide Act, Kept;
      PassiveKeeps(cfg, v, d, 0);
    } else if d.DoZap? && v.joined.Some? {
      SwitchStatistics(cfg, Judge(cfg, WakeUp(v), v.joined.value).0, v.joined.value, v.leaved.value, d.on);
    }
  }

  lemma SwitchStatistics(cfg: ZapConfig, v: Viewer, j: nat, l: nat, on: bool)
    requires j < |v.groups| && l < |v.groups| && cfg.groups > 0
    ensures Switch(cfg, v, j, l, on).join == v.join && Switch(cfg, v, j, l, on).late == v.late
  {
    hide NextGroup, LeaveDelay;
  }

  ghost predicate NoReset(ds: seq<Doing>) {
    forall k :: 0 <= k < |ds| ==> !ds[k].DoReset?
  }

  function Above(h: seq<nat>, lo: nat, hi: nat): nat {
    if h == [] then 0 else Above(h[..|h| - 1], lo, hi) + (if lo < h[|h| - 1] <= hi then 1 else 0)
  }

  // The five buckets split the delays above 125 milliseconds.
  ghost predicate Buckets125(cfg: ZapConfig, b: Buckets, h: seq<nat>) {
    && b.over125 == Above(h, 125, 250) && b.over250 == Above(h, 250, 500)
    && b.over500 == Above(h, 500, 1000) && b.over1000 == Above(h, 1000, 2000)
    && b.over2000 == Above(h, 2000, WORD)
    && b.over125 + b.over250 + b.over500 + b.over1000 + b.over2000 == Above(h, 125, WORD)
    && b.limit == if cfg.maxJoinDelay == 0 then 0 else Above(h, cfg.maxJoinDelay, WORD)
  }

  lemma ClassifyAgrees(cfg: ZapConfig, b: Buckets, h: seq<nat>, delay: nat)
    requires Buckets125(cfg, b, h) && delay < WORD
    ensures Buckets125(cfg, Classify(cfg, b, delay), h + [delay])
  {
    assert (h + [delay])[..|h|] == h;
  }

  lemma DelayInWord(from: Time, to: Time)
    ensures 1 <= Delay(from, to) < WORD
  {
  }

  // In every run without a reset, as long as the count fits its 32 bits, the
  // join-delay statistics are those of the delays measured so far: zero stands for "none", and 1 <= min <= avg <= max otherwise.
  lemma {:induction false} StatisticsMatchHistory(cfg: ZapConfig, v: Viewer, ds: seq<Doing>)
    requires 1 < cfg.groups && cfg.interval > 0 && SlotInv(v) && NoReset(ds)
    requires v.join == Delays(0, 0, 0, 0, 0) && v.late == Buckets(0, 0, 0, 0, 0, 0)
    ensures var w := Watch(cfg, v, ds);
      |Measured(cfg, v, ds)| < WORD ==>
        Agrees(w.join, Measured(cfg, v, ds)) && Bounded(w.join) && Buckets125(cfg, w.late, Measured(cfg, v, ds))
  {
    if ds == [] {
    } else {
      hide Act, MeasuredBy, Agrees, Bounded, Buckets125, Delay, Measure, Classify, SlotInv;
      var n := |ds| - 1;
      var w := Watch(cfg, v, ds[..n]);
      StatisticsMatchHistory(cfg, v, ds[..n]);
      MeasureStep(cfg, w, ds[n]);
      MeasuredRange(cfg, w, ds[n]);
      var h, m := Measured(cfg, v, ds[..n]), MeasuredBy(cfg, w, ds[n]);
      if m == [] {
        assert h + m == h;
      } else if |h| + 1 < WORD {
        assert m == [m[0]];
        MeasureAgrees(w.join, h, m[0]);
        ClassifyAgrees(cfg, w.late, h, m[0]);
      }
    }
  }

  lemma MeasuredRange(cfg: ZapConfig, v: Viewer, d: Doing)
    requires SlotInv(v) && cfg.groups > 0
    ensures Sized(v)
    ensures var m := MeasuredBy(cfg, v, d); m == [] || (|m| == 1 && 1 <= m[0] < WORD)
  {
    hide Watching, Delay;
    if v.joined.Some? {
      var g := v.groups[v.joined.value];
      DelayInWord(g.joinTx, g.firstRx);
    }
  }

  // ---- Once per join

  // The join still waits for its verdict.
  ghost function Pending(v: Viewer): nat
    requires SlotInv(v)
  {
    if v.joined.Some? && !v.groups[v.joined.value].measured then 1 else 0
  }

  // ---- Every join gets one verdict

  // The tick finds no traffic of the joined group and does not wait for it.
  ghost predicate Misses(cfg: ZapConfig, v: Viewer, d: Doing)
    requires Sized(v) && cfg.groups > 0
  {
    && d.DoZap? && v.joined.Some? && v.leaved.Some? && d.up && !Watching(cfg, v, d.now)
    && v.groups[v.joined.value].firstRx.sec == 0 && !cfg.wait
  }

  // It has found so before.
  ghost predicate Recounts(cfg: ZapConfig, v: Viewer, d: Doing)
    requires Sized(v) && cfg.groups > 0
  {
    Misses(cfg, v, d) && v.groups[v.joined.value].measured
  }

  ghost function MissCount(cfg: ZapConfig, v: Viewer, ds: seq<Doing>): nat
    requires 1 < cfg.groups && cfg.interval > 0 && SlotInv(v)
  {
    if ds == [] then 0
    else MissCount(cfg, v, ds[..|ds| - 1])
         + if Misses(cfg, Watch(cfg, v, ds[..|ds| - 1]), ds[|ds| - 1]) then 1 else 0
  }

  ghost function RecountCount(cfg: ZapConfig, v: Viewer, ds: seq<Doing>): nat
    requires 1 < cfg.groups && cfg.interval > 0 && SlotInv(v)
  {
    if ds == [] then 0
    else RecountCount(cfg, v, ds[..|ds| - 1])
         + if Recounts(cfg, Watch(cfg, v, ds[..|ds| - 1]), ds[|ds| - 1]) then 1 else 0
  }

  lemma JudgeVerdict(cfg: ZapConfig, v: Viewer, j: nat)
    requires j < |v.groups|
    ensures var (w, judged) := Judge(cfg, v, j);
      var seen := v.groups[j].firstRx.sec != 0;
      && judged == (seen || !cfg.wait)
      && |w.groups| == |v.groups| && w.groups[j].measured == (v.groups[j].measured || judged)
      && w.joined == v.joined && w.leaved == v.leaved
      && w.missed == v.missed + (if !seen && !cfg.wait then 1 else 0)
  {
    hide Delay, Measure, Classify;
  }

  lemma SwitchVerdict(cfg: ZapConfig, v: Viewer, j: nat, l: nat, on: bool)
    requires j < |v.groups| && l < |v.groups| && j != l && cfg.groups > 0 && v.joined == Some(j)
    ensures var w := Switch(cfg, v, j, l, on);
      && |w.groups| == |v.groups| && w.missed == v.missed
      && w.joined == Some(if on then l else j)
      && w.groups[w.joined.value].measured == (!on && v.groups[j].measured)
  {
    hide NextGroup, LeaveDelay;
  }

  lemma VerdictZap(cfg: ZapConfig, v: Viewer, d: Doing)
    requires 1 < cfg.groups && SlotInv(v) && d.DoZap? && v.joined.Some?
    ensures var w := Act(cfg, v, d);
      && SlotInv(w) && w.joined.Some?
      && w.missed == v.missed + (if Misses(cfg, v, d) then 1 else 0)
      && (w.joined == v.joined ==>
            w.groups[w.joined.value].measured
            == (v.groups[v.joined.value].measured || MeasuredBy(cfg, v, d) != [] || Misses(cfg, v, d)))
      && (w.joined != v.joined ==>
            !w.groups[w.joined.value].measured
            && (v.groups[v.joined.value].measured || MeasuredBy(cfg, v, d) != [] || Misses(cfg, v, d)))
  {
    hide Judge, Switch, Watching, Delay;
    ZapKeepsSlots(cfg, v, d.up, d.on, d.now);
    var j, l := v.joined.value, v.leaved.value;
    JudgeVerdict(cfg, WakeUp(v), j);
    var (w, judged) := Judge(cfg, WakeUp(v), j);
    SwitchVerdict(cfg, w, j, l, d.on);
  }

  lemma VerdictStep(cfg: ZapConfig, v: Viewer, d: Doing)
    requires 1 < cfg.groups && cfg.interval > 0 && SlotInv(v) && !d.DoJoin? && !d.DoReset?
    ensures SlotInv(Act(cfg, v, d))
    ensures Act(cfg, v, d).missed == v.missed + (if Misses(cfg, v, d) then 1 else 0)
    ensures |MeasuredBy(cfg, v, d)| + (if Misses(cfg, v, d) then 1 else 0) + Pending(Act(cfg, v, d))
         == Pending(v) + |JoinedBy(cfg, v, d)| + (if Recounts(cfg, v, d) then 1 else 0)
  {
    SlotStep(cfg, v, d);
    if Passive(d) {
      hide Act;
      PassiveKeeps(cfg, v, d, 0);
      PassiveKeeps(cfg, v, d, 1);
    } else if v.joined.Some? {
      VerdictZap(cfg, v, d);
      hide Act, Watching, Delay;
    } else {
      hide Watching, Delay;
    }
  }

  // Conservation: the delays measured and the misses counted are the joins, apart
  // from one that may still be pending, plus the misses counted again. So each join
  // gets at most one verdict if and only if no miss is counted again.
  lemma {:induction false} VerdictsConserved(cfg: ZapConfig, v: Viewer, ds: seq<Doing>)
    requires 1 < cfg.groups && cfg.interval > 0 && SlotInv(v) && Undisturbed(ds)
    ensures Watch(cfg, v, ds).missed == v.missed + MissCount(cfg, v, ds)
    ensures |Measured(cfg, v, ds)| + MissCount(cfg, v, ds) + Pending(Watch(cfg, v, ds))
         == Pending(v) + |Joins(cfg, v, ds)| + RecountCount(cfg, v, ds)
  {
    hide Act, MeasuredBy, JoinedBy, SlotInv, Pending, Misses, Recounts;
    if ds != [] {
      var n := |ds| - 1;
      VerdictsConserved(cfg, v, ds[..n]);
      MeasuredRange(cfg, Watch(cfg, v, ds[..n]), ds[n]);
      VerdictStep(cfg, Watch(cfg, v, ds[..n]), ds[n]);
    }
  }

  lemma {:induction false} RecountsAreMisses(cfg: ZapConfig, v: Viewer, ds: seq<Doing>)
    requires 1 < cfg.groups && cfg.interval > 0 && SlotInv(v)
    ensures RecountCount(cfg, v, ds) <= MissCount(cfg, v, ds)
  {
    hide Act, Misses;
    if ds != [] {
      RecountsAreMisses(cfg, v, ds[..|ds| - 1]);
    }
  }

  // Between one join and the next at most one delay is recorded.
  lemma MeasuredOncePerJoin(cfg: ZapConfig, v: Viewer, ds: seq<Doing>)
    requires 1 < cfg.groups && cfg.interval > 0 && SlotInv(v) && Undisturbed(ds)
    ensures |Measured(cfg, v, ds)| + Pending(Watch(cfg, v, ds)) <= Pending(v) + |Joins(cfg, v, ds)|
  {
    hide Measured, Joins, MissCount, RecountCount, Watch, Pending, SlotInv;
    VerdictsConserved(cfg, v, ds);
    RecountsAreMisses(cfg, v, ds);
  }

  // The joined group has no verdict yet.
  ghost predicate Open(v: Viewer) {
    SlotInv(v) && (v.joined.Some? ==> !v.groups[v.joined.value].measured)
  }

  lemma OpenStep(cfg: ZapConfig, v: Viewer, d: Doing)
    requires 1 < cfg.groups && cfg.interval > 0 && Open(v) && !d.DoJoin? && !d.DoReset? && (d.DoZap? ==> d.on)
    ensures Open(Act(cfg, v, d)) && !Recounts(cfg, v, d)
  {
    SlotStep(cfg, v, d);
    if Passive(d) {
      hide Act;
      PassiveKeeps(cfg, v, d, 0);
      PassiveKeeps(cfg, v, d, 1);
    } else {
      hide Delay, Measure, Classify, NextGroup, LeaveDelay, Watching;
    }
  }

  // While zapping is not stopped no miss is counted again.
  lemma {:induction false} OnlyStopsRecount(cfg: ZapConfig, v: Viewer, ds: seq<Doing>)
    requires 1 < cfg.groups && cfg.interval > 0 && Open(v) && Undisturbed(ds)
    requires forall k :: 0 <= k < |ds| ==> (ds[k].DoZap? ==> ds[k].on)
    ensures RecountCount(cfg, v, ds) == 0 && Open(Watch(cfg, v, ds))
  {
    hide Act, Recounts, Open, SlotInv;
    OpenSlots(v);
    if ds != [] {
      var n := |ds| - 1;
      OnlyStopsRecount(cfg, v, ds[..n]);
      OpenStep(cfg, Watch(cfg, v, ds[..n]), ds[n]);
    }
  }

  lemma OpenSlots(v: Viewer)
    requires Open(v)
    ensures SlotInv(v)
  {
  }

  // For example: zapping is stopped and the joined group, already left and without
  // traffic, is counted as missed on every tick.
  lemma StoppedRecounts(cfg: ZapConfig, v: Viewer, now: Time)
    requires 1 < cfg.groups && SlotInv(v) && v.joined == Some(0) && v.viewStart.sec == 0 && !cfg.wait
    requires v.groups[0].firstRx.sec == 0 && v.groups[0].measured && !Wanted(v.groups[0].state)
    ensures Recounts(cfg, v, DoZap(true, false, now))
    ensures Act(cfg, v, DoZap(true, false, now)) == v.(missed := v.missed + 1)
  {
    assert v.groups[0 := v.groups[0].(measured := true)] == v.groups;
  }

  // ---- Reconnect

  // A reset forgets minimum, maximum and average but not sum and count. The next
  // measurement is sound, whatever its value, exactly when nothing had been
  // measured before the reset.
  lemma ResetSoundIff(v: Viewer)
    requires Bounded(v.join) && v.join.count + 1 < WORD
    ensures (forall x :: 1 <= x < WORD ==> Sandwiched(Measure(Reset(v).join, x))) <==> v.join.count == 0
  {
    hide Measure, Reset, Bounded, Sandwiched;
    var r := Reset(v).join;
    var n, sum := v.join.count, v.join.sum;
    forall x: nat | 1 <= x < WORD
      ensures Sandwiched(Measure(r, x)) <==> (sum + x) / (n + 1) == x
      ensures n == 0 ==> Sandwiched(Measure(r, x))
    {
      MeasureFresh(v, x);
    }
    if n > 0 {
      Skewed(sum, n);
      assert !Sandwiched(Measure(r, 1)) || !Sandwiched(Measure(r, 3));
    }
  }

  lemma MeasureFresh(v: Viewer, x: nat)
    requires Bounded(v.join) && v.join.count + 1 < WORD && 1 <= x < WORD
    ensures Sandwiched(Measure(Reset(v).join, x)) <==> (v.join.sum + x) / (v.join.count + 1) == x
    ensures v.join.count == 0 ==> Sandwiched(Measure(Reset(v).join, x))
  {
    SumFits(v.join.count, v.join.sum, v.join.max, x);
    var sum, count := v.join.sum + x, v.join.count + 1;
    assert sum % LONG == sum && count % WORD == count;
    hide Bounded;
    var m := Measure(Reset(v).join, x);
    assert m.min == x && m.max == x && m.avg == sum / count;
    if v.join.count == 0 {
      assert sum == x by {
        BoundedZero(v.join);
      }
      assert x / 1 == x;
    }
  }

  lemma BoundedZero(d: Delays)
    requires Bounded(d) && d.count == 0
    ensures d.sum == 0
  {
  }

  // An average over older values misses 1 or 3.
  lemma Skewed(sum: nat, n: nat)
    requires n > 0
    ensures (sum + 1) / (n + 1) != 1 || (sum + 3) / (n + 1) != 3
  {
  }

  predicate Sandwiched(d: Delays) {
    d.min <= d.avg <= d.max
  }

  // For example: a delay of 100 before a reconnect and one of 2 after it.
  lemma ResetSkewsAverage(v: Viewer)
    requires v.join == Measure(Delays(0, 0, 0, 0, 0), 100)
    ensures Measure(Reset(v).join, 2) == Delays(102, 2, 2, 2, 51)
  {
  }

  // The delays measured since the last reset.
  ghost function SinceReset(cfg: ZapConfig, v: Viewer, ds: seq<Doing>): seq<nat>
    requires 1 < cfg.groups && cfg.interval > 0 && SlotInv(v)
  {
    if ds == [] || ds[|ds| - 1].DoReset? then []
    else SinceReset(cfg, v, ds[..|ds| - 1]) + MeasuredBy(cfg, Watch(cfg, v, ds[..|ds| - 1]), ds[|ds| - 1])
  }

  // Sum, count and average are of the whole history h, minimum and maximum of the
  // recent part.
  ghost predicate Blends(d: Delays, h: seq<nat>, recent: seq<nat>) {
    && d.sum == Sum(h) <= (WORD - 1) * |h| && d.count == |h|
    && (recent == [] ==> d.min == d.max == d.avg == 0)
    && (recent != [] ==>
          && 1 <= d.min && d.min in recent && d.max in recent && (forall x :: x in recent ==> d.min <= x <= d.max)
          && h != [] && d.avg == Sum(h) / |h|)
  }

  lemma MeasureBlends(d: Delays, h: seq<nat>, recent: seq<nat>, delay: nat)
    requires Blends(d, h, recent) && 1 <= delay < WORD && |h| + 1 < WORD
    ensures Blends(Measure(d, delay), h + [delay], recent + [delay])
  {
    var n := |h|;
    assert (h + [delay])[..n] == h;
    assert (WORD - 1) * (n + 1) == (WORD - 1) * n + (WORD - 1);
    Scale(n + 1, WORD - 1, WORD - 1);
    assert (WORD - 1) * (n + 1) < LONG;
    forall x ensures x in recent + [delay] <==> x in recent || x == delay {
    }
    assert delay in recent + [delay];
  }

  lemma ResetBlends(v: Viewer, h: seq<nat>, recent: seq<nat>)
    requires Blends(v.join, h, recent)
    ensures Blends(Reset(v).join, h, [])
  {
  }

  // In every run, resets included, as long as the count fits its 32 bits: sum, count
  // and buckets are those of all delays ever measured, minimum and maximum those of the
  // delays since the last reset, and the average, once something was measured since
  // then, is the one over all.
  lemma {:induction false} StatisticsAcrossResets(cfg: ZapConfig, v: Viewer, ds: seq<Doing>)
    requires 1 < cfg.groups && cfg.interval > 0 && SlotInv(v)
    requires v.join == Delays(0, 0, 0, 0, 0) && v.late == Buckets(0, 0, 0, 0, 0, 0)
    ensures var w := Watch(cfg, v, ds);
      |Measured(cfg, v, ds)| < WORD ==>
        && Blends(w.join, Measured(cfg, v, ds), SinceReset(cfg, v, ds))
        && Buckets125(cfg, w.late, Measured(cfg, v, ds))
  {
    if ds == [] {
    } else {
      hide Act, MeasuredBy, Blends, Buckets125, Delay, Measure, Classify, SlotInv;
      var n := |ds| - 1;
      var w := Watch(cfg, v, ds[..n]);
      StatisticsAcrossResets(cfg, v, ds[..n]);
      MeasuredRange(cfg, w, ds[n]);
      var h, m := Measured(cfg, v, ds[..n]), MeasuredBy(cfg, w, ds[n]);
      var recent := SinceReset(cfg, v, ds[..n]);
      if ds[n].DoReset? {
        ResetMeasuresNothing(cfg, w, ds[n]);
        assert h + m == h;
        if |h| < WORD {
          ResetBlends(w, h, recent);
        }
      } else {
        MeasureStep(cfg, w, ds[n]);
        if m == [] {
          assert h + m == h && recent + m == recent;
        } else if |h| + 1 < WORD {
          assert m == [m[0]];
          MeasureBlends(w.join, h, recent, m[0]);
          ClassifyAgrees(cfg, w.late, h, m[0]);
        }
      }
    }
  }

  lemma ResetMeasuresNothing(cfg: ZapConfig, v: Viewer, d: Doing)
    requires SlotInv(v) && cfg.groups > 0 && d.DoReset? && Sized(v)
    ensures MeasuredBy(cfg, v, d) == [] && Act(cfg, v, d).join == Reset(v).join && Act(cfg, v, d).late == v.late
  {
  }
}
