/**
 IGMP zapping of one session: which multicast group is joined next, how the two
 slots take turns, and the delays measured on the way. Addresses are numbers in
 host order; a time with zero seconds means "not yet".
 */
module ZappingSpec {
  import opened Types

  const LONG := 0x1_0000_0000_0000_0000
  const SECOND := 1_000_000_000
  const MILLI := 1_000_000
  const MAX_GROUPS := 12

  // ---- Time

  datatype Time = Time(sec: nat, nsec: nat)

  const NEVER := Time(0, 0)

  predicate IsTime(t: Time) {
    t.nsec < SECOND
  }

  function Nanos(t: Time): nat {
    t.sec * SECOND + t.nsec
  }

  // x - y, or zero when y is later.
  function TimeSub(x: Time, y: Time): Time {
    if x.sec < y.sec then NEVER
    else if x.nsec < y.nsec then
      if x.sec == y.sec then NEVER
      else Time(x.sec - y.sec - 1, if x.nsec + SECOND >= y.nsec then x.nsec + SECOND - y.nsec else 0)
    else Time(x.sec - y.sec, x.nsec - y.nsec)
  }

  // The delay between two times in milliseconds, rounded up, at least one.
  function Delay(from: Time, to: Time): nat {
    var d := TimeSub(to, from);
    var ms := d.nsec / MILLI + (if d.nsec % MILLI != 0 then 1 else 0);
    var delay := (d.sec * 1000 + ms) % WORD;
    if delay == 0 then 1 else delay
  }

  // ---- Configuration and state

  datatype ZapConfig = ZapConfig(
    base: nat, iter: nat, groups: nat, interval: nat, wait: bool,
    zapCount: nat, viewDuration: nat, maxJoinDelay: nat)

  // Values fit their fields, and zapping is configured with groups that exist.
  predicate Configured(cfg: ZapConfig) {
    && cfg.base < WORD && cfg.iter < WORD
    && 1 < cfg.groups < 0x1_0000 && cfg.interval > 0
    && cfg.base + (cfg.groups - 1) * cfg.iter < WORD
  }

  // In the order of the enumeration the program compares with.
  datatype GroupState = Off | Leaving | Active | Joining

  predicate Wanted(s: GroupState) {
    s.Active? || s.Joining?
  }

  datatype Group = Group(
    address: nat, state: GroupState, robustness: nat, send: bool, packets: nat, loss: nat,
    joinTx: Time, firstRx: Time, leaveTx: Time, lastRx: Time, measured: bool)

  const UNUSED := Group(0, Off, 0, false, 0, 0, NEVER, NEVER, NEVER, NEVER, false)

  datatype Delays = Delays(sum: nat, count: nat, min: nat, max: nat, avg: nat)

  datatype Buckets = Buckets(limit: nat, over125: nat, over250: nat, over500: nat, over1000: nat, over2000: nat)

  // Counters of received traffic: the last sequence number, the loss of the session
  // and of its interface, and packets of the left group after the new one arrived.
  datatype Traffic = Traffic(lastSeq: nat, loss: nat, interfaceLoss: nat, stale: nat)

  datatype Viewer = Viewer(
    groups: seq<Group>, joined: Option<nat>, leaved: Option<nat>,
    zaps: nat, viewStart: Time, robustness: nat,
    join: Delays, late: Buckets, leave: Delays, missed: nat, traffic: Traffic)

  ghost predicate Sized(v: Viewer) {
    && |v.groups| == MAX_GROUPS
    && (v.joined.Some? ==> v.joined.value < MAX_GROUPS)
    && (v.leaved.Some? ==> v.leaved.value < MAX_GROUPS)
  }

  // ---- Groups

  function GroupMax(cfg: ZapConfig): nat
    requires cfg.groups > 0
  {
    (cfg.base + (cfg.groups - 1) * cfg.iter) % WORD
  }

  function NextGroup(cfg: ZapConfig, address: nat): nat
    requires cfg.groups > 0
  {
    var next := (address + cfg.iter) % WORD;
    if next > GroupMax(cfg) then cfg.base else next
  }

  // ---- Statistics

  // The sum is kept in 64 bits and the count in 32; where the count wraps to zero the
  // program divides by it.
  function Measure(d: Delays, delay: nat): Delays {
    var sum, count := (d.sum + delay) % LONG, (d.count + 1) % WORD;
    Delays(sum, count,
           if d.min == 0 || delay < d.min then delay else d.min,
           if delay > d.max then delay else d.max,
           if count == 0 then d.avg else sum / count)
  }

  function Classify(cfg: ZapConfig, b: Buckets, delay: nat): Buckets {
    var c := if cfg.maxJoinDelay != 0 && delay > cfg.maxJoinDelay then b.(limit := b.limit + 1) else b;
    if delay > 2000 then c.(over2000 := c.over2000 + 1)
    else if delay > 1000 then c.(over1000 := c.over1000 + 1)
    else if delay > 500 then c.(over500 := c.over500 + 1)
    else if delay > 250 then c.(over250 := c.over250 + 1)
    else if delay > 125 then c.(over125 := c.over125 + 1)
    else c
  }

  // ---- Joining and zapping

  function FirstJoin(cfg: ZapConfig, random: nat, robustness: nat): Group {
    var start := if cfg.groups > 1 then random % cfg.groups else 0;
    UNUSED.(address := (cfg.base + start * cfg.iter) % WORD, robustness := robustness, state := Joining, send := true)
  }

  // The initial join, given two random numbers.
  function InitialJoin(cfg: ZapConfig, v: Viewer, up: bool, start: nat, zaps: nat): Viewer
    requires |v.groups| == MAX_GROUPS
  {
    if !up then v
    else if cfg.groups > 1 && cfg.interval > 0 then
      v.(groups := v.groups[0 := FirstJoin(cfg, start, v.robustness)][1 := UNUSED],
         joined := Some(0), leaved := Some(1),
         zaps := if cfg.zapCount != 0 && cfg.viewDuration != 0 then zaps % cfg.zapCount % 256 else 1)
    else v.(groups := v.groups[0 := FirstJoin(cfg, start, v.robustness)], zaps := 1)
  }

  // The session is still watching.
  predicate Watching(cfg: ZapConfig, v: Viewer, now: Time) {
    v.viewStart.sec != 0 && TimeSub(now, v.viewStart).sec < cfg.viewDuration
  }

  function WakeUp(v: Viewer): Viewer {
    if v.viewStart.sec != 0 then v.(viewStart := v.viewStart.(sec := 0), zaps := 0) else v
  }

  // Records how the last join went; false when the session keeps waiting for it.
  function Judge(cfg: ZapConfig, v: Viewer, j: nat): (Viewer, bool)
    requires j < |v.groups|
  {
    var g := v.groups[j];
    if g.firstRx.sec != 0 then
      if g.measured then (v, true)
      else
        var delay := Delay(g.joinTx, g.firstRx);
        (v.(groups := v.groups[j := g.(measured := true)],
            join := Measure(v.join, delay), late := Classify(cfg, v.late, delay)), true)
    else if cfg.wait then (v, false)
    else (v.(groups := v.groups[j := g.(measured := true)], missed := v.missed + 1), true)
  }

  function Left(g: Group, robustness: nat): Group {
    g.(state := Leaving, robustness := robustness, send := true, leaveTx := NEVER, lastRx := NEVER)
  }

  function LeaveDelay(d: Delays, g: Group): Delays {
    if g.address != 0 && g.lastRx.sec != 0 && g.leaveTx.sec != 0 then Measure(d, Delay(g.leaveTx, g.lastRx)) else d
  }

  function Joined(address: nat, robustness: nat): Group {
    UNUSED.(address := address, state := Joining, robustness := robustness, send := true)
  }

  function Stopped(g: Group): Group {
    g.(lastRx := g.lastRx.(sec := 0), leaveTx := g.leaveTx.(sec := 0))
  }

  // Leaves group j and, while zapping goes on, joins the next group in slot l.
  function Switch(cfg: ZapConfig, v: Viewer, j: nat, l: nat, on: bool): Viewer
    requires j < |v.groups| && l < |v.groups| && cfg.groups > 0
  {
    var next := NextGroup(cfg, v.groups[j].address);
    var gs := v.groups[j := Left(v.groups[j], v.robustness)];
    var w := v.(groups := gs, leave := LeaveDelay(v.leave, gs[l]));
    if on then w.(groups := gs[l := Joined(next, v.robustness)], joined := Some(l), leaved := Some(j))
    else w.(groups := gs[l := Stopped(gs[l])])
  }

  function CountZap(cfg: ZapConfig, v: Viewer, now: Time): Viewer {
    var zaps := (v.zaps + 1) % 256;
    v.(zaps := zaps,
       viewStart := if cfg.zapCount != 0 && cfg.viewDuration != 0 && zaps >= cfg.zapCount then now else v.viewStart)
  }

  // One tick of the zapping timer. `up` says that the session may send IPv4, `on`
  // that zapping is not stopped.
  function Zap(cfg: ZapConfig, v: Viewer, up: bool, on: bool, now: Time): Viewer
    requires Sized(v) && cfg.groups > 0
  {
    if !up || v.joined.None? || v.leaved.None? || Watching(cfg, v, now) then v
    else
      var j, l := v.joined.value, v.leaved.value;
      var (w, judged) := Judge(cfg, WakeUp(v), j);
      if !judged || (!on && !Wanted(w.groups[j].state)) then w
      else CountZap(cfg, Switch(cfg, w, j, l, on), now)
  }

  // ---- Reports

  function Retried(g: Group): Group {
    if g.robustness != 0 then (if g.state.Joining? || g.state.Leaving? then g.(send := true) else g)
    else if g.state.Joining? then g.(state := Active)
    else if g.state.Leaving? then g.(state := Off)
    else g
  }

  // The IGMP robustness timer.
  function IgmpTimeout(v: Viewer, up: bool): Viewer {
    if !up then v
    else v.(groups := seq(|v.groups|, i requires 0 <= i < |v.groups| => Retried(v.groups[i])))
  }

  // A group whose report or leave goes out at time now.
  function Reported(g: Group, now: Time): Group {
    var r := g.(send := false, robustness := if g.robustness > 0 then g.robustness - 1 else 0);
    if g.state.Leaving? then (if g.leaveTx.sec == 0 then r.(leaveTx := now) else r)
    else if g.joinTx.sec == 0 then r.(joinTx := now)
    else r
  }

  function Settled(g: Group): Group {
    if g.robustness != 0 then g
    else if g.state.Joining? then g.(state := Active)
    else if g.state.Leaving? then g.(state := Off)
    else g
  }

  datatype Version = V1 | V2 | V3

  // One report: version 3 takes all groups that are due, from slot i on, but mixes
  // joins and leaves only if told to; older versions take the first one.
  function Report(gs: seq<Group>, i: nat, version: Version, combined: bool, isJoin: bool, isLeave: bool, now: Time): (r: seq<Group>)
    ensures |r| == |gs|
    decreases |gs| - i
  {
    if i >= |gs| then gs
    else
      var g := gs[i];
      var leaving := g.state.Leaving?;
      if !g.send || g.state.Off? || (!combined && (if leaving then isJoin else isLeave)) then
        Report(gs, i + 1, version, combined, isJoin, isLeave, now)
      else
        match version
        case V3 =>
          Report(gs[i := Settled(Reported(g, now))], i + 1, version, combined,
                 isJoin || (!leaving && !isLeave), isLeave || (leaving && !isJoin), now)
        case V2 => gs[i := Reported(g, now)]
        case V1 =>
          gs[i := if leaving then g.(send := false, state := Off, robustness := if g.robustness > 0 then g.robustness - 1 else 0)
                  else Reported(g, now)]
  }

  // A membership query, for one group or (zero) for all, with its robustness value.
  function Query(v: Viewer, address: nat, robustness: nat): Viewer {
    v.(robustness := if robustness != 0 then robustness else v.robustness, groups := seq(|v.groups|, i requires 0 <= i < |v.groups| =>
      if v.groups[i].state.Active? && (address == 0 || v.groups[i].address == address)
      then v.groups[i].(send := true) else v.groups[i]))
  }

  // ---- Traffic

  // A packet with sequence number seq (if it carries one) for one group.
  function RxGroup(v: Viewer, i: nat, dst: nat, now: Time, seqNo: Option<nat>): Viewer
    requires i < |v.groups|
  {
    var g, t := v.groups[i], v.traffic;
    if g.address != dst then v
    else
      var h := g.(packets := (g.packets + 1) % LONG, lastRx := now);
      if Wanted(g.state) then
        if g.firstRx.sec == 0 then
          v.(groups := v.groups[i := h.(firstRx := now)],
             traffic := t.(lastSeq := if seqNo.Some? then seqNo.value else t.lastSeq))
        else if seqNo.None? then v.(groups := v.groups[i := h])
        else
          var lost := Lost(t.lastSeq, seqNo.value);
          v.(groups := v.groups[i := h.(loss := (g.loss + lost) % LONG)],
             traffic := t.(lastSeq := seqNo.value, loss := (t.loss + lost) % WORD,
                           interfaceLoss := (t.interfaceLoss + lost) % LONG))
      else
        var gs := v.groups[i := h];
        v.(groups := gs,
           traffic := if v.leaved == Some(i) && NewGroupSeen(gs, v.joined) then t.(stale := t.stale + 1) else t)
  }

  predicate NewGroupSeen(gs: seq<Group>, joined: Option<nat>) {
    joined.Some? && joined.value < |gs| && gs[joined.value].firstRx.sec != 0
  }

  // Packets missing between two sequence numbers, in 64-bit arithmetic.
  function Lost(last: nat, next: nat): nat {
    var expected := (last + 1) % LONG;
    if expected < next then next - expected else 0
  }

  function RxMc(v: Viewer, n: nat, dst: nat, now: Time, seqNo: Option<nat>): (w: Viewer)
    requires n <= |v.groups|
    ensures |w.groups| == |v.groups|
  {
    if n == 0 then v else RxGroup(RxMc(v, n - 1, dst, now, seqNo), n - 1, dst, now, seqNo)
  }

  // ---- Reset on reconnect

  function Reset(v: Viewer): Viewer {
    v.(joined := None, leaved := None, zaps := 0, viewStart := NEVER,
       join := v.join.(min := 0, max := 0, avg := 0), leave := v.leave.(min := 0, max := 0, avg := 0),
       missed := 0, traffic := v.traffic.(loss := 0, stale := 0))
  }
}
