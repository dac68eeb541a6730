/**
 Multicast loss: what the counters say after any sequence of packets of one
 joined group.
 */
module McLoss {
  import opened Types
  import opened ZappingSpec

  datatype McPacket = McPacket(now: Time, number: nat)

  ghost predicate Numbered(ps: seq<McPacket>) {
    forall k :: 0 <= k < |ps| ==> ps[k].number < LONG && ps[k].now.sec != 0
  }

  function Deliver(v: Viewer, dst: nat, ps: seq<McPacket>): (w: Viewer)
    requires |v.groups| == MAX_GROUPS
    ensures |w.groups| == MAX_GROUPS
  {
    if ps == [] then v
    else
      var last := |ps| - 1;
      RxMc(Deliver(v, dst, ps[..last]), MAX_GROUPS, dst, ps[last].now, Some(ps[last].number))
  }

  // ---- One slot receives the traffic

  // Slot i is the only one with this address, and it is joined.
  ghost predicate OnlySlot(v: Viewer, i: nat, dst: nat) {
    && |v.groups| == MAX_GROUPS && i < MAX_GROUPS
    && v.groups[i].address == dst && Wanted(v.groups[i].state)
    && forall k :: 0 <= k < MAX_GROUPS && k != i ==> v.groups[k].address != dst
  }

  lemma {:induction false} RxOnlySlot(v: Viewer, n: nat, i: nat, dst: nat, now: Time, seqNo: Option<nat>)
    requires OnlySlot(v, i, dst) && n <= MAX_GROUPS
    ensures RxMc(v, n, dst, now, seqNo) == if n <= i then v else RxGroup(v, i, dst, now, seqNo)
  {
    if n > 0 {
      RxOnlySlot(v, n - 1, i, dst, now, seqNo);
    }
  }

  // ---- Arithmetic of one gap

  // The packets missing between two numbers.
  function Gap(last: nat, next: nat): nat {
    if last + 1 < next then next - last - 1 else 0
  }

  // The successor of the largest number is zero in 64-bit arithmetic.
  predicate Overruns(last: nat, next: nat) {
    last == LONG - 1 && next > 0
  }

  lemma LostIff(last: nat, next: nat)
    requires last < LONG && next < LONG
    ensures Gap(last, next) <= Lost(last, next)
    ensures Lost(last, next) == Gap(last, next) <==> !Overruns(last, next)
  {
  }

  // ---- Sums over a sequence of packets

  function Counted(ps: seq<McPacket>): nat {
    if |ps| < 2 then 0 else Counted(ps[..|ps| - 1]) + Lost(ps[|ps| - 2].number, ps[|ps| - 1].number)
  }

  function Gaps(ps: seq<McPacket>): nat {
    if |ps| < 2 then 0 else Gaps(ps[..|ps| - 1]) + Gap(ps[|ps| - 2].number, ps[|ps| - 1].number)
  }

  ghost predicate NoOverrun(ps: seq<McPacket>) {
    forall k :: 0 < k < |ps| ==> !Overruns(ps[k - 1].number, ps[k].number)
  }

  ghost predicate Increasing(ps: seq<McPacket>) {
    forall k :: 0 < k < |ps| ==> ps[k - 1].number < ps[k].number
  }

  // The counted loss is never less than the sum of the gaps, and equal to it
  // exactly when no packet follows the one with the largest number.
  lemma {:induction false} CountsGapsIff(ps: seq<McPacket>)
    requires Numbered(ps)
    ensures Gaps(ps) <= Counted(ps)
    ensures Counted(ps) == Gaps(ps) <==> NoOverrun(ps)
  {
    if |ps| >= 2 {
      var n := |ps| - 1;
      CountsGapsIff(ps[..n]);
      LostIff(ps[n - 1].number, ps[n].number);
      NoOverrunSnoc(ps);
    }
  }

  // For example: the number starts over at five after the largest one.
  lemma OverrunCounted(a: McPacket, b: McPacket)
    requires a.number == LONG - 1 && b.number == 5
    ensures Counted([a, b]) == 5 && Gaps([a, b]) == 0
  {
    assert [a, b][..1] == [a];
  }

  lemma NoOverrunSnoc(ps: seq<McPacket>)
    requires |ps| >= 2
    ensures NoOverrun(ps) <==> NoOverrun(ps[..|ps| - 1]) && !Overruns(ps[|ps| - 2].number, ps[|ps| - 1].number)
  {
    hide Overruns;
    var q := ps[..|ps| - 1];
    if NoOverrun(q) && !Overruns(ps[|ps| - 2].number, ps[|ps| - 1].number) {
      forall k | 0 < k < |ps| ensures !Overruns(ps[k - 1].number, ps[k].number) {
        assert k < |q| ==> !Overruns(q[k - 1].number, q[k].number);
      }
    } else if NoOverrun(ps) {
      forall k | 0 < k < |q| ensures !Overruns(q[k - 1].number, q[k].number) {
        assert !Overruns(ps[k - 1].number, ps[k].number);
      }
    }
  }

  lemma IncreasingSnoc(ps: seq<McPacket>)
    requires |ps| >= 2
    ensures Increasing(ps) <==> Increasing(ps[..|ps| - 1]) && ps[|ps| - 2].number < ps[|ps| - 1].number
  {
    var q := ps[..|ps| - 1];
    if Increasing(q) && ps[|ps| - 2].number < ps[|ps| - 1].number {
      forall k | 0 < k < |ps| ensures ps[k - 1].number < ps[k].number {
        assert k < |q| ==> q[k - 1].number < q[k].number;
      }
    } else if Increasing(ps) {
      forall k | 0 < k < |q| ensures q[k - 1].number < q[k].number {
        assert ps[k - 1].number < ps[k].number;
      }
    }
  }

  // The packets sent from the first to the last number, less those received.
  function Span(ps: seq<McPacket>): int
    requires ps != []
  {
    ps[|ps| - 1].number - ps[0].number + 1 - |ps|
  }

  // Loss is never undercounted: it is at least what is missing between the first
  // and the last number, and exactly that when the numbers only increase.
  lemma {:induction false} GapsSpanIff(ps: seq<McPacket>)
    requires ps != []
    ensures Gaps(ps) >= Span(ps)
    ensures Gaps(ps) == Span(ps) <==> Increasing(ps)
  {
    if |ps| >= 2 {
      GapsSpanIff(ps[..|ps| - 1]);
      IncreasingSnoc(ps);
    }
  }

  // ---- The counters

  function AddLong(a: nat, b: nat): nat {
    (a + b) % LONG
  }

  function AddWord(a: nat, b: nat): nat {
    (a + b) % WORD
  }

  lemma WrapLong(a: nat, b: nat, c: nat)
    ensures AddLong(AddLong(a, b), c) == AddLong(a, b + c)
    ensures a < LONG ==> AddLong(a, 0) == a
  {
  }

  lemma WrapWord(a: nat, b: nat, c: nat)
    ensures AddWord(AddWord(a, b), c) == AddWord(a, b + c)
    ensures a < WORD ==> AddWord(a, 0) == a
  {
  }

  // The three counters have grown by the same amount, each within its own width.
  ghost predicate Grown(v: Viewer, w: Viewer, i: nat, packets: nat, lost: nat)
    requires i < |v.groups| == |w.groups|
  {
    && w.groups[i].packets == AddLong(v.groups[i].packets, packets)
    && w.groups[i].loss == AddLong(v.groups[i].loss, lost)
    && w.traffic.loss == AddWord(v.traffic.loss, lost)
    && w.traffic.interfaceLoss == AddLong(v.traffic.interfaceLoss, lost)
  }

  ghost predicate InWidth(v: Viewer, i: nat)
    requires i < |v.groups|
  {
    v.traffic.loss < WORD && v.traffic.interfaceLoss < LONG && v.groups[i].loss < LONG && v.groups[i].packets < LONG
  }

  // One packet of the group in slot i.
  lemma RxOne(v: Viewer, i: nat, dst: nat, p: McPacket)
    requires OnlySlot(v, i, dst) && InWidth(v, i) && p.now.sec != 0
    ensures var w := RxGroup(v, i, dst, p.now, Some(p.number));
      && OnlySlot(w, i, dst) && InWidth(w, i) && w.groups[i].firstRx.sec != 0 && w.traffic.lastSeq == p.number
      && Grown(v, w, i, 1, if v.groups[i].firstRx.sec == 0 then 0 else Lost(v.traffic.lastSeq, p.number))
  {
    hide Lost;
  }

  lemma GrownChains(u: Viewer, v: Viewer, w: Viewer, i: nat, n: nat, a: nat, m: nat, b: nat)
    requires i < |u.groups| == |v.groups| == |w.groups| && Grown(u, v, i, n, a) && Grown(v, w, i, m, b)
    ensures Grown(u, w, i, n + m, a + b)
  {
    hide AddLong, AddWord;
    WrapLong(u.groups[i].packets, n, m);
    WrapLong(u.groups[i].loss, a, b);
    WrapWord(u.traffic.loss, a, b);
    WrapLong(u.traffic.interfaceLoss, a, b);
  }

  // From a fresh join on, every packet is counted and the loss counters grow by the
  // counted loss.
  lemma {:induction false} CountersAfter(v: Viewer, i: nat, dst: nat, ps: seq<McPacket>)
    requires OnlySlot(v, i, dst) && InWidth(v, i) && v.groups[i].firstRx.sec == 0 && Numbered(ps)
    ensures var w := Deliver(v, dst, ps);
      && OnlySlot(w, i, dst) && InWidth(w, i) && (w.groups[i].firstRx.sec == 0 <==> ps == [])
      && (ps != [] ==> w.traffic.lastSeq == ps[|ps| - 1].number)
      && Grown(v, w, i, |ps|, Counted(ps))
  {
    hide AddLong, AddWord, Lost, RxGroup, RxMc, Wanted;
    if ps == [] {
      WrapLong(v.groups[i].packets, 0, 0);
      WrapLong(v.groups[i].loss, 0, 0);
      WrapWord(v.traffic.loss, 0, 0);
      WrapLong(v.traffic.interfaceLoss, 0, 0);
    } else {
      var n := |ps| - 1;
      CountersAfter(v, i, dst, ps[..n]);
      var w := Deliver(v, dst, ps[..n]);
      RxOnlySlot(w, MAX_GROUPS, i, dst, ps[n].now, Some(ps[n].number));
      RxOne(w, i, dst, ps[n]);
      var lost := if n == 0 then 0 else Lost(ps[n - 1].number, ps[n].number);
      GrownChains(v, w, Deliver(v, dst, ps), i, n, Counted(ps[..n]), 1, lost);
    }
  }

  // The loss counters of every run of one group: all three grow by the counted loss,
  // which is at least the sum of the gaps and at least what is missing in between,
  // with equality exactly for increasing numbers.
  lemma LossNeverUndercounts(v: Viewer, i: nat, dst: nat, ps: seq<McPacket>)
    requires OnlySlot(v, i, dst) && InWidth(v, i) && v.groups[i].firstRx.sec == 0 && Numbered(ps) && ps != []
    ensures |Deliver(v, dst, ps).groups| == |v.groups| && i < |v.groups|
    ensures Grown(v, Deliver(v, dst, ps), i, |ps|, Counted(ps))
    ensures Counted(ps) >= Gaps(ps) >= Span(ps)
    ensures Counted(ps) == Span(ps) <==> Increasing(ps)
  {
    hide Deliver, Gaps, Counted, OnlySlot, Grown;
    OnlySlotInRange(v, i, dst);
    CountersAfter(v, i, dst, ps);
    OnlySlotInRange(Deliver(v, dst, ps), i, dst);
    CountsGapsIff(ps);
    GapsSpanIff(ps);
    if Increasing(ps) {
      forall k | 0 < k < |ps| ensures !Overruns(ps[k - 1].number, ps[k].number) {
        assert ps[k - 1].number < ps[k].number;
      }
    }
  }

  lemma OnlySlotInRange(v: Viewer, i: nat, dst: nat)
    requires OnlySlot(v, i, dst)
    ensures i < |v.groups| == MAX_GROUPS
  {
  }

  // ---- Several groups

  // A packet of one of several joined groups.
  datatype GroupPacket = GroupPacket(dst: nat, now: Time, number: nat)

  ghost predicate AllNumbered(ps: seq<GroupPacket>) {
    forall k :: 0 <= k < |ps| ==> ps[k].number < LONG && ps[k].now.sec != 0
  }

  function DeliverAll(v: Viewer, ps: seq<GroupPacket>): (w: Viewer)
    requires |v.groups| == MAX_GROUPS
    ensures |w.groups| == MAX_GROUPS
  {
    if ps == [] then v
    else
      var last := |ps| - 1;
      RxMc(DeliverAll(v, ps[..last]), MAX_GROUPS, ps[last].dst, ps[last].now, Some(ps[last].number))
  }

  // The last number of a group.
  function OwnLast(ps: seq<GroupPacket>, dst: nat): Option<nat> {
    if ps == [] then None
    else if ps[|ps| - 1].dst == dst then Some(ps[|ps| - 1].number)
    else OwnLast(ps[..|ps| - 1], dst)
  }

  // What is missing before packet k of its group, and what the program counts: it
  // keeps one last number for all groups of the session.
  function Missing(ps: seq<GroupPacket>, k: nat): nat
    requires k < |ps|
  {
    match OwnLast(ps[..k], ps[k].dst)
    case None => 0
    case Some(own) => Gap(own, ps[k].number)
  }

  function Recorded(ps: seq<GroupPacket>, k: nat): nat
    requires k < |ps|
  {
    if OwnLast(ps[..k], ps[k].dst).None? || k == 0 then 0 else Lost(ps[k - 1].number, ps[k].number)
  }

  // Slot slots[dst] is the only one with the address dst, and it is joined.
  ghost predicate Slots(v: Viewer, slots: map<nat, nat>) {
    forall dst :: dst in slots ==> OnlySlot(v, slots[dst], dst)
  }

  // What the session remembers after the packets ps.
  ghost predicate Tracks(v: Viewer, slots: map<nat, nat>, ps: seq<GroupPacket>)
    requires |v.groups| == MAX_GROUPS
  {
    && Slots(v, slots)
    && (ps != [] ==> v.traffic.lastSeq == ps[|ps| - 1].number)
    && (forall dst :: dst in slots ==>
          (v.groups[slots[dst]].firstRx.sec == 0 <==> OwnLast(ps, dst).None?) && v.groups[slots[dst]].loss < LONG)
  }

  lemma RxTracked(v: Viewer, slots: map<nat, nat>, ps: seq<GroupPacket>)
    requires |v.groups| == MAX_GROUPS && ps != [] && ps[|ps| - 1].dst in slots && ps[|ps| - 1].now.sec != 0
    requires Tracks(v, slots, ps[..|ps| - 1])
    ensures var k := |ps| - 1;
      var w := RxMc(v, MAX_GROUPS, ps[k].dst, ps[k].now, Some(ps[k].number));
      var i := slots[ps[k].dst];
      Tracks(w, slots, ps) && i < MAX_GROUPS && w.groups[i].loss == AddLong(v.groups[i].loss, Recorded(ps, k))
  {
    hide Lost, RxMc;
    var k := |ps| - 1;
    var i := slots[ps[k].dst];
    assert OnlySlot(v, i, ps[k].dst);
    RxOnlySlot(v, MAX_GROUPS, i, ps[k].dst, ps[k].now, Some(ps[k].number));
    var w := RxGroup(v, i, ps[k].dst, ps[k].now, Some(ps[k].number));
    WrapLong(v.groups[i].loss, 0, 0);
    forall dst | dst in slots
      ensures OnlySlot(w, slots[dst], dst)
      ensures (w.groups[slots[dst]].firstRx.sec == 0 <==> OwnLast(ps, dst).None?) && w.groups[slots[dst]].loss < LONG
    {
      assert OnlySlot(v, slots[dst], dst);
      assert dst != ps[k].dst ==> slots[dst] != i;
    }
  }

  lemma {:induction false} TracksAll(v: Viewer, slots: map<nat, nat>, ps: seq<GroupPacket>)
    requires |v.groups| == MAX_GROUPS && Tracks(v, slots, []) && AllNumbered(ps)
    requires forall k :: 0 <= k < |ps| ==> ps[k].dst in slots
    ensures Tracks(DeliverAll(v, ps), slots, ps)
  {
    hide Tracks, RxMc;
    if ps != [] {
      TracksAll(v, slots, ps[..|ps| - 1]);
      RxTracked(DeliverAll(v, ps[..|ps| - 1]), slots, ps);
    }
  }

  // Packet k adds to the loss of its group what is missing before it.
  ghost predicate CountsRightAt(v: Viewer, slots: map<nat, nat>, ps: seq<GroupPacket>, k: nat)
    requires |v.groups| == MAX_GROUPS && k < |ps| && ps[k].dst in slots && slots[ps[k].dst] < MAX_GROUPS
  {
    var i := slots[ps[k].dst];
    DeliverAll(v, ps[..k + 1]).groups[i].loss == AddLong(DeliverAll(v, ps[..k]).groups[i].loss, Missing(ps, k))
  }

  // The session's last number does for the group's own: it is the same, or there is
  // no gap after either of them; and it is not the largest number.
  predicate Substitutes(any: nat, own: nat, next: nat) {
    !Overruns(any, next) && (any == own || (next <= any + 1 && next <= own + 1))
  }

  ghost predicate SubstitutesAt(ps: seq<GroupPacket>, k: nat)
    requires k < |ps|
  {
    k > 0 && OwnLast(ps[..k], ps[k].dst).Some? ==>
      Substitutes(ps[k - 1].number, OwnLast(ps[..k], ps[k].dst).value, ps[k].number)
  }

  lemma SubstitutesIff(any: nat, own: nat, next: nat)
    requires any < LONG && own < LONG && next < LONG
    ensures Lost(any, next) == Gap(own, next) <==> Substitutes(any, own, next)
  {
  }

  lemma {:induction false} OwnLastInRange(ps: seq<GroupPacket>, dst: nat)
    requires AllNumbered(ps)
    ensures OwnLast(ps, dst).Some? ==> ps != [] && OwnLast(ps, dst).value < LONG
  {
    if ps != [] && ps[|ps| - 1].dst != dst {
      OwnLastInRange(ps[..|ps| - 1], dst);
    }
  }

  lemma RecordedIff(ps: seq<GroupPacket>, k: nat)
    requires AllNumbered(ps) && k < |ps|
    ensures Recorded(ps, k) < LONG && Missing(ps, k) < LONG
    ensures Recorded(ps, k) == Missing(ps, k) <==> SubstitutesAt(ps, k)
  {
    var own := OwnLast(ps[..k], ps[k].dst);
    OwnLastInRange(ps[..k], ps[k].dst);
    if own.Some? {
      SubstitutesIff(ps[k - 1].number, own.value, ps[k].number);
    }
  }

  lemma AddLongInjective(x: nat, a: nat, b: nat)
    requires x < LONG && a < LONG && b < LONG
    ensures AddLong(x, a) == AddLong(x, b) <==> a == b
  {
  }

  // Any interleaving of the packets of several joined groups: packet by packet the
  // loss of the groups is counted right if and only if, for every packet that is not
  // the first of its group, the last number of the session does for the group's own.
  lemma InterleavedIff(v: Viewer, slots: map<nat, nat>, ps: seq<GroupPacket>)
    requires |v.groups| == MAX_GROUPS && Tracks(v, slots, []) && AllNumbered(ps)
    requires forall k :: 0 <= k < |ps| ==> ps[k].dst in slots && slots[ps[k].dst] < MAX_GROUPS
    ensures (forall k :: 0 <= k < |ps| ==> CountsRightAt(v, slots, ps, k)) <==> forall k :: 0 <= k < |ps| ==> SubstitutesAt(ps, k)
  {
    forall k | 0 <= k < |ps| ensures CountsRightAt(v, slots, ps, k) <==> SubstitutesAt(ps, k) {
      InterleavedAt(v, slots, ps, k);
    }
  }

  lemma InterleavedAt(v: Viewer, slots: map<nat, nat>, ps: seq<GroupPacket>, k: nat)
    requires |v.groups| == MAX_GROUPS && Tracks(v, slots, []) && AllNumbered(ps) && k < |ps|
    requires forall j :: 0 <= j < |ps| ==> ps[j].dst in slots && slots[ps[j].dst] < MAX_GROUPS
    ensures CountsRightAt(v, slots, ps, k) <==> SubstitutesAt(ps, k)
  {
    hide RxMc, Recorded, Missing, SubstitutesAt, OnlySlot, AddLong;
    var q := ps[..k + 1];
    assert q[..k] == ps[..k] && q[k] == ps[k];
    TracksAll(v, slots, ps[..k]);
    RxTracked(DeliverAll(v, ps[..k]), slots, q);
    SameAt(ps, k);
    RecordedIff(ps, k);
    AddLongInjective(DeliverAll(v, ps[..k]).groups[slots[ps[k].dst]].loss, Recorded(ps, k), Missing(ps, k));
  }

  lemma SameAt(ps: seq<GroupPacket>, k: nat)
    requires k < |ps|
    ensures Recorded(ps[..k + 1], k) == Recorded(ps, k)
  {
    assert ps[..k + 1][..k] == ps[..k];
  }

  // For example: after number 1 of one group comes 100 of another, and then 50 of the
  // first: 48 packets are missing, and the counter of the group stays as it is.
  lemma OtherGroupHidesLoss(v: Viewer, slots: map<nat, nat>, a: GroupPacket, b: GroupPacket, c: GroupPacket)
    requires |v.groups| == MAX_GROUPS && Tracks(v, slots, []) && AllNumbered([a, b, c])
    requires a.dst == c.dst != b.dst && a.number == 1 && b.number == 100 && c.number == 50
    requires a.dst in slots && b.dst in slots && slots[a.dst] < MAX_GROUPS && slots[b.dst] < MAX_GROUPS
    ensures Missing([a, b, c], 2) == 48 && !CountsRightAt(v, slots, [a, b, c], 2)
    ensures DeliverAll(v, [a, b, c]).groups[slots[a.dst]].loss == DeliverAll(v, [a, b]).groups[slots[a.dst]].loss
  {
    hide RxMc, OnlySlot;
    var ps := [a, b, c];
    assert ps[..2] == [a, b] && [a, b][..1] == [a];
    assert OwnLast([a], a.dst) == Some(1);
    assert Missing(ps, 2) == 48 && Recorded(ps, 2) == 0 && !SubstitutesAt(ps, 2);
    InterleavedAt(v, slots, ps, 2);
    TracksAll(v, slots, [a, b]);
    RxTracked(DeliverAll(v, [a, b]), slots, ps);
    WrapLong(DeliverAll(v, [a, b]).groups[slots[a.dst]].loss, 0, 0);
  }
}
