/** Delivery-ledger slots and the two ordered RACK passes over newly delivered
    ones (section 6.2 of RFC 8985). */
module RackOrder {
  import opened Words

  /** What a slot remembers of its transmission for rate sampling. */
  datatype Snapshot = Snapshot(firstTx: u64, deliveredAt: u64, priorInflight: u32, appLimited: bool)

  /** `struct tcp_shift_delivery_slot`; segment 0 stands for a null pointer. */
  datatype Slot = Slot(
    segment: nat,
    txNs: u64,
    deliveredAtSend: nat,
    seqStart: u32,
    payload: u16,
    acked: u16,
    retransmitted: bool,
    rackStage: nat,
    snap: Snapshot)

  const EMPTY := Slot(0, 0, 0, 0, 0, 0, false, 0, Snapshot(0, 0, 0, false))

  function EndSeq(s: Slot): u32 { Wrap32(s.seqStart + s.payload) }

  /** Fully delivered and waiting for the pass numbered `stage`. */
  predicate Waiting(s: Slot, stage: nat)
  {
    s.segment != 0 && s.rackStage == stage && s.payload != 0 && s.acked >= s.payload
  }

  /** `tcp_shift_rack_sent_after`. */
  predicate SentAfter(aTx: u64, aEnd: u32, bTx: u64, bEnd: u32)
  {
    if aTx > bTx then true
    else if aTx < bTx then false
    else SignedDistance(aEnd, bEnd) > 0
  }

  // --------------------------------------------------------------- RACK state

  datatype Rack = Rack(
    minRtt: u64, rtt: u64, ackTs: u64,
    xmitTs: u64, endSeq: u32,
    fack: u32, reorderingSeen: bool)

  /** First pass for one slot: the RTT minimum, then `tcp_shift_rack_note_delivered`. */
  function NoteDelivered(r: Rack, s: Slot, now: u64): Rack
  {
    var sampled :=
      if !s.retransmitted && now >= s.txNs && now - s.txNs != 0 && (r.minRtt == 0 || now - s.txNs < r.minRtt)
      then r.(minRtt := now - s.txNs) else r;
    if s.txNs == 0 || now < s.txNs then sampled else
    var rtt := now - s.txNs;
    if s.retransmitted && sampled.minRtt != 0 && rtt < sampled.minRtt then sampled else
    var timed := sampled.(rtt := rtt, ackTs := now);
    if SentAfter(s.txNs, EndSeq(s), timed.xmitTs, timed.endSeq)
    then timed.(xmitTs := s.txNs, endSeq := EndSeq(s)) else timed
  }

  /** Second pass for one slot: `tcp_shift_rack_detect_reordering`. */
  function DetectReordering(r: Rack, s: Slot): Rack
  {
    if r.fack == 0 || SignedDistance(EndSeq(s), r.fack) > 0 then r.(fack := EndSeq(s))
    else if EndSeq(s) != r.fack && !s.retransmitted then r.(reorderingSeen := true)
    else r
  }

  function NoteAll(r: Rack, slots: seq<Slot>, order: seq<nat>, now: u64): Rack
    requires forall k :: 0 <= k < |order| ==> order[k] < |slots|
  {
    if order == [] then r
    else NoteDelivered(NoteAll(r, slots, order[..|order| - 1], now), slots[order[|order| - 1]], now)
  }

  function DetectAll(r: Rack, slots: seq<Slot>, order: seq<nat>): Rack
    requires forall k :: 0 <= k < |order| ==> order[k] < |slots|
  {
    if order == [] then r
    else DetectReordering(DetectAll(r, slots, order[..|order| - 1]), slots[order[|order| - 1]])
  }

  // ------------------------------------------------------ orders and visitation

  /** The 32-bit end of every occupied slot is the image of its unbounded end,
      and occupied slots lie within half the sequence space of each other. */
  ghost predicate EndsMatch(slots: seq<Slot>, ends: seq<int>)
  {
    && |ends| == |slots|
    && (forall i :: 0 <= i < |slots| && slots[i].segment != 0 ==> EndSeq(slots[i]) == Wrap32(ends[i]))
    && (forall i, j :: 0 <= i < |slots| && 0 <= j < |slots| && slots[i].segment != 0 && slots[j].segment != 0
          ==> Near(ends[i], ends[j]) && (ends[i] == ends[j] ==> i == j))
  }

  lemma EndsMatchLength(slots: seq<Slot>, ends: seq<int>)
    requires EndsMatch(slots, ends)
    ensures |ends| == |slots|
  {
  }

  /** Transmission order, ties broken by end of sequence; and plain sequence order. */
  ghost predicate TimeLess(slots: seq<Slot>, ends: seq<int>, i: nat, j: nat)
    requires i < |slots| == |ends| && j < |slots|
  {
    slots[i].txNs < slots[j].txNs || (slots[i].txNs == slots[j].txNs && ends[i] < ends[j])
  }

  ghost predicate EndLess(ends: seq<int>, i: nat, j: nat)
    requires i < |ends| && j < |ends|
  { ends[i] < ends[j] }

  ghost predicate Less(slots: seq<Slot>, ends: seq<int>, byTime: bool, i: nat, j: nat)
    requires i < |slots| == |ends| && j < |slots|
  { if byTime then TimeLess(slots, ends, i, j) else EndLess(ends, i, j) }

  ghost predicate InOrder(slots: seq<Slot>, ends: seq<int>, byTime: bool, order: seq<nat>)
    requires |ends| == |slots|
  {
    && (forall k :: 0 <= k < |order| ==> order[k] < |slots|)
    && (forall k, m :: 0 <= k < m < |order| ==> Less(slots, ends, byTime, order[k], order[m]))
  }

  /** Every slot waiting for `stage` is visited, nothing else is. */
  ghost predicate VisitsAll(slots: seq<Slot>, stage: nat, order: seq<nat>)
  {
    forall i: nat :: i < |slots| ==> (Waiting(slots[i], stage) <==> i in order)
  }

  function Staged(slots: seq<Slot>, order: seq<nat>, stage: nat): (r: seq<Slot>)
    ensures |r| == |slots|
  {
    seq(|slots|, i requires 0 <= i < |slots| => if i in order then slots[i].(rackStage := stage) else slots[i])
  }

  ghost function VisitedSet(order: seq<nat>): set<int> { set k | 0 <= k < |order| :: order[k] }

  /** An in-order visit list has no repetition, so it is no longer than the slot table. */
  lemma VisitsBounded(slots: seq<Slot>, ends: seq<int>, byTime: bool, order: seq<nat>)
    requires |ends| == |slots| && InOrder(slots, ends, byTime, order)
    ensures |order| <= |slots|
    ensures |order| == |slots| ==> forall i: nat :: i < |slots| ==> i in order
  {
    var visited: set<int> := VisitedSet(order);
    DistinctCount(order, slots, ends, byTime);
    SubsetCount(visited, Interval(0, |slots|));
    forall i: nat | |order| == |slots| && i < |slots| ensures i in order {
      assert i in visited;
    }
  }

  lemma {:induction false} DistinctCount(order: seq<nat>, slots: seq<Slot>, ends: seq<int>, byTime: bool)
    requires |ends| == |slots| && InOrder(slots, ends, byTime, order)
    ensures |VisitedSet(order)| == |order|
  {
    var visited: set<int> := VisitedSet(order);
    if order == [] {
      assert visited == {};
    } else {
      var n := |order| - 1;
      var before := order[..n];
      DistinctCount(before, slots, ends, byTime);
      var earlier: set<int> := VisitedSet(before);
      forall k | 0 <= k < n ensures order[k] != order[n] {
        assert Less(slots, ends, byTime, order[k], order[n]);
      }
      assert visited == earlier + {order[n]};
    }
  }

  // --------------------------------------------------------------------- loops

  /** The inner scan: the least waiting slot, or the table length when none waits. */
  method SelectNext(slots: array<Slot>, ghost ends: seq<int>, byTime: bool, stage: nat)
    returns (next: nat)
    requires EndsMatch(slots[..], ends)
    ensures next <= slots.Length
    ensures next < slots.Length ==> Waiting(slots[next], stage)
    ensures next < slots.Length ==>
      forall i: nat :: i < slots.Length && i != next && Waiting(slots[i], stage) ==>
        Less(slots[..], ends, byTime, next, i)
    ensures next == slots.Length ==> forall i: nat :: i < slots.Length ==> !Waiting(slots[i], stage)
  {
    next := slots.Length;
    var index := 0;
    while index < slots.Length
      invariant index <= slots.Length
      invariant next < index || next == slots.Length
      invariant next < slots.Length ==> Waiting(slots[next], stage)
      invariant next < slots.Length ==>
        forall i: nat :: i < index && i != next && Waiting(slots[i], stage) ==>
          Less(slots[..], ends, byTime, next, i)
      invariant next == slots.Length ==> forall i: nat :: i < index ==> !Waiting(slots[i], stage)
    {
      var slot := slots[index];
      if Waiting(slot, stage) {
        if next == slots.Length {
          next := index;
        } else {
          var best := slots[next];
          assert slots[..][next] == best && slots[..][index] == slot;
          SignedDistanceExact(ends[next], ends[index]);
          SignedDistanceExact(ends[index], ends[next]);
          if byTime {
            if SentAfter(best.txNs, EndSeq(best), slot.txNs, EndSeq(slot)) { next := index; }
          } else {
            if SignedDistance(EndSeq(slot), EndSeq(best)) < 0 { next := index; }
          }
        }
      }
      index := index + 1;
    }
  }

  /** What a pass has established after visiting `order`: the table differs from
      `was` only in the marks, and every unvisited waiting slot comes later. */
  ghost predicate PassState(was: seq<Slot>, cur: seq<Slot>, ends: seq<int>, byTime: bool, stage: nat, order: seq<nat>)
  {
    && EndsMatch(was, ends)
    && InOrder(was, ends, byTime, order)
    && cur == Staged(was, order, stage + 1)
    && (forall k :: 0 <= k < |order| ==> Waiting(was[order[k]], stage))
    && (forall k, i: nat :: 0 <= k < |order| && i < |was| && i !in order && Waiting(was[i], stage)
          ==> Less(was, ends, byTime, order[k], i))
  }

  /** Marking does not disturb the ends or the order. */
  lemma StagedFrame(was: seq<Slot>, ends: seq<int>, order: seq<nat>, stage: nat)
    requires EndsMatch(was, ends)
    ensures EndsMatch(Staged(was, order, stage), ends)
  {
    hide Near, EndSeq;
    var cur := Staged(was, order, stage);
    forall i | 0 <= i < |was|
      ensures cur[i].segment == was[i].segment && EndSeq(cur[i]) == EndSeq(was[i])
    {
      EndOfMarked(was[i], stage);
    }
  }

  lemma EndOfMarked(s: Slot, stage: nat)
    ensures EndSeq(s.(rackStage := stage)) == EndSeq(s)
  {
  }

  lemma PassStart(was: seq<Slot>, ends: seq<int>, byTime: bool, stage: nat)
    requires EndsMatch(was, ends)
    ensures PassState(was, was, ends, byTime, stage, [])
  {
    assert was == Staged(was, [], stage + 1);
  }

  lemma PassStep(was: seq<Slot>, cur: seq<Slot>, ends: seq<int>, byTime: bool, stage: nat, order: seq<nat>, next: nat)
    requires PassState(was, cur, ends, byTime, stage, order)
    requires next < |cur| && Waiting(cur[next], stage)
    requires forall i: nat :: i < |cur| && i != next && Waiting(cur[i], stage) ==> Less(cur, ends, byTime, next, i)
    ensures cur[next] == was[next]
    ensures PassState(was, cur[next := cur[next].(rackStage := stage + 1)], ends, byTime, stage, order + [next])
    ensures |order| < |was|
  {
    var order' := order + [next];
    StepFrontier(was, cur, ends, byTime, stage, order, next);
    assert InOrder(was, ends, byTime, order') by {
      hide Less, Waiting, EndSeq, Near;
      forall k, m | 0 <= k < m < |order'| ensures Less(was, ends, byTime, order'[k], order'[m]) {
        if m < |order| { assert Less(was, ends, byTime, order[k], order[m]); }
      }
    }
    assert cur[next := cur[next].(rackStage := stage + 1)] == Staged(was, order', stage + 1) by {
      hide Less, Waiting, EndsMatch;
      forall i: nat | i < |was| ensures i in order' <==> i in order || i == next {
        AppendMembership(order, next, i);
      }
    }
    VisitsBounded(was, ends, byTime, order');
  }

  /** The slot just selected precedes everything still waiting. */
  lemma StepFrontier(was: seq<Slot>, cur: seq<Slot>, ends: seq<int>, byTime: bool, stage: nat, order: seq<nat>,
      next: nat)
    requires PassState(was, cur, ends, byTime, stage, order)
    requires next < |cur| && Waiting(cur[next], stage)
    requires forall i: nat :: i < |cur| && i != next && Waiting(cur[i], stage) ==> Less(cur, ends, byTime, next, i)
    ensures next !in order && cur[next] == was[next]
    ensures forall k :: 0 <= k < |order| ==> Less(was, ends, byTime, order[k], next)
    ensures forall k, i: nat :: 0 <= k <= |order| && i < |was| && i !in order + [next] && Waiting(was[i], stage)
              ==> Less(was, ends, byTime, (order + [next])[k], i)
  {
    hide EndSeq, Near;
    assert next !in order;
    forall k, i: nat | 0 <= k <= |order| && i < |was| && i !in order + [next] && Waiting(was[i], stage)
      ensures Less(was, ends, byTime, (order + [next])[k], i)
    {
      AppendMembership(order, next, i);
      assert cur[i] == was[i];
    }
  }

  lemma AppendMembership<T>(s: seq<T>, x: T, y: T)
    ensures y in s + [x] <==> y in s || y == x
  {
    assert (s + [x])[|s|] == x;
  }

  lemma PassDone(was: seq<Slot>, cur: seq<Slot>, ends: seq<int>, byTime: bool, stage: nat, order: seq<nat>)
    requires PassState(was, cur, ends, byTime, stage, order)
    requires |order| >= |was| || forall i: nat :: i < |cur| ==> !Waiting(cur[i], stage)
    ensures VisitsAll(was, stage, order)
  {
    VisitsBounded(was, ends, byTime, order);
    forall i: nat | i < |was| ensures Waiting(was[i], stage) <==> i in order {
      if i !in order { assert cur[i] == was[i]; }
    }
  }

  /** One ordered pass: repeat the scan, handle the slot it found, mark it. The
      mark takes the slot out of the waiting set, so the loop ends, and the
      capacity check never cuts it short. */
  method OrderedPass(slots: array<Slot>, ghost ends: seq<int>, byTime: bool, stage: nat, rack: Rack, now: u64)
    returns (rack': Rack, ghost order: seq<nat>)
    requires EndsMatch(slots[..], ends)
    modifies slots
    ensures InOrder(old(slots[..]), ends, byTime, order)
    ensures VisitsAll(old(slots[..]), stage, order)
    ensures slots[..] == Staged(old(slots[..]), order, stage + 1)
    ensures rack' == if byTime then NoteAll(rack, old(slots[..]), order, now)
                     else DetectAll(rack, old(slots[..]), order)
  {
    hide Waiting, NoteDelivered, DetectReordering, Less, VisitsAll, EndsMatch, Staged;
    rack', order := rack, [];
    ghost var was := slots[..];
    PassStart(was, ends, byTime, stage);
    var processed := 0;
    while true
      invariant processed == |order| <= slots.Length
      invariant PassState(was, slots[..], ends, byTime, stage, order)
      invariant rack' == if byTime then NoteAll(rack, was, order, now) else DetectAll(rack, was, order)
      decreases slots.Length - processed
    {
      StagedFrame(was, ends, order, stage + 1);
      var next := SelectNext(slots, ends, byTime, stage);
      if next == slots.Length {
        break;
      }
      PassStep(was, slots[..], ends, byTime, stage, order, next);
      ghost var marked := slots[..][next := slots[next].(rackStage := stage + 1)];
      rack' := if byTime then NoteDelivered(rack', slots[next], now) else DetectReordering(rack', slots[next]);
      slots[next] := slots[next].(rackStage := stage + 1);
      assert slots[..] == marked;
      assert (order + [next])[..|order|] == order;
      order := order + [next];
      processed := processed + 1;
      if processed >= slots.Length {
        break;
      }
    }
    PassDone(was, slots[..], ends, byTime, stage, order);
  }

  ghost predicate NoneWaiting(slots: seq<Slot>, stage: nat)
  {
    forall i :: 0 <= i < |slots| ==> !Waiting(slots[i], stage)
  }

  /** `tcp_shift_rack_process_delivered_slots`: both passes visit exactly the
      slots newly delivered, each in its own order, and leave none half done. */
  method ProcessDelivered(slots: array<Slot>, ghost ends: seq<int>, rack: Rack, now: u64)
    returns (rack': Rack, ghost timeOrder: seq<nat>, ghost endOrder: seq<nat>)
    requires EndsMatch(slots[..], ends) && NoneWaiting(slots[..], 1)
    modifies slots
    ensures now == 0 ==> rack' == rack && slots[..] == old(slots[..])
    ensures now != 0 ==>
      && InOrder(old(slots[..]), ends, true, timeOrder) && VisitsAll(old(slots[..]), 0, timeOrder)
      && InOrder(old(slots[..]), ends, false, endOrder) && VisitsAll(old(slots[..]), 0, endOrder)
      && slots[..] == Staged(old(slots[..]), timeOrder, 2)
      && rack' == DetectAll(NoteAll(rack, old(slots[..]), timeOrder, now), old(slots[..]), endOrder)
      && NoneWaiting(slots[..], 0)
    ensures NoneWaiting(slots[..], 1)
  {
    hide NoteDelivered, DetectReordering, EndsMatch, Less, Staged, VisitsAll, NoneWaiting;
    EndsMatchLength(slots[..], ends);
    timeOrder, endOrder := [], [];
    if now == 0 { return rack, [], []; }
    ghost var was := slots[..];
    rack', timeOrder := OrderedPass(slots, ends, true, 0, rack, now);
    StagedFrame(was, ends, timeOrder, 1);
    assert slots[..] == Staged(was, timeOrder, 1);
    ghost var noted := rack';
    rack', endOrder := OrderedPass(slots, ends, false, 1, rack', now);
    SecondPass(was, ends, timeOrder, endOrder);
    DetectFrame(noted, was, timeOrder, 1, endOrder);
  }

  /** What the second pass visits, in terms of the table before the first. */
  lemma SecondPass(was: seq<Slot>, ends: seq<int>, timeOrder: seq<nat>, endOrder: seq<nat>)
    requires |ends| == |was| && NoneWaiting(was, 1)
    requires VisitsAll(was, 0, timeOrder) && VisitsAll(Staged(was, timeOrder, 1), 1, endOrder)
    requires InOrder(Staged(was, timeOrder, 1), ends, false, endOrder)
    ensures VisitsAll(was, 0, endOrder) && InOrder(was, ends, false, endOrder)
    ensures var done := Staged(was, timeOrder, 2);
            && Staged(Staged(was, timeOrder, 1), endOrder, 2) == done
            && NoneWaiting(done, 0) && NoneWaiting(done, 1)
  {
    var mid := Staged(was, timeOrder, 1);
    forall i: nat | i < |was| ensures i in timeOrder <==> i in endOrder {
      assert Waiting(mid[i], 1) <==> i in timeOrder by { assert !Waiting(was[i], 1); }
    }
    forall k, m | 0 <= k < m < |endOrder| ensures Less(was, ends, false, endOrder[k], endOrder[m]) {
      assert Less(mid, ends, false, endOrder[k], endOrder[m]);
    }
    assert Staged(mid, endOrder, 2) == Staged(was, timeOrder, 2);
    forall i: nat | i < |was| ensures !Waiting(Staged(was, timeOrder, 2)[i], 0)
        && !Waiting(Staged(was, timeOrder, 2)[i], 1) {
      assert !Waiting(was[i], 1) && (Waiting(was[i], 0) <==> i in timeOrder);
    }
  }

  lemma MarkUnseen(r: Rack, s: Slot, stage: nat)
    ensures DetectReordering(r, s.(rackStage := stage)) == DetectReordering(r, s)
  {
    hide EndSeq;
    EndOfMarked(s, stage);
  }

  /** The second pass does not look at the marks the first one left. */
  lemma {:induction false} DetectFrame(r: Rack, was: seq<Slot>, marked: seq<nat>, stage: nat, order: seq<nat>)
    requires forall k :: 0 <= k < |order| ==> order[k] < |was|
    ensures DetectAll(r, Staged(was, marked, stage), order) == DetectAll(r, was, order)
  {
    hide DetectReordering;
    if order != [] {
      var before, last := order[..|order| - 1], order[|order| - 1];
      DetectFrame(r, was, marked, stage, before);
      MarkUnseen(DetectAll(r, was, before), was[last], stage);
    }
  }

  /** Where the forward-most delivered sequence stands after visiting `order`. */
  ghost function FackAfter(r: Rack, fackPos: int, ends: seq<int>, order: seq<nat>): int
    requires forall k :: 0 <= k < |order| ==> order[k] < |ends|
  {
    if order == [] then fackPos
    else if r.fack == 0 then ends[order[|order| - 1]]
    else Max(fackPos, ends[order[|order| - 1]])
  }

  ghost predicate LateArrival(slots: seq<Slot>, ends: seq<int>, order: seq<nat>, fackPos: int)
    requires |ends| == |slots| && forall k :: 0 <= k < |order| ==> order[k] < |slots|
  {
    exists k :: 0 <= k < |order| && ends[order[k]] < fackPos && !slots[order[k]].retransmitted
  }

  /** Sequence order makes reordering detection exact: it is declared if and only
      if some never-retransmitted slot ends below what had been delivered before
      this ACK, however the slots are laid out and whatever else the ACK covers. */
  lemma {:induction false} ReorderingExact(r: Rack, fackPos: int, slots: seq<Slot>, ends: seq<int>, order: seq<nat>)
    requires EndsMatch(slots, ends) && InOrder(slots, ends, false, order)
    requires forall k :: 0 <= k < |order| ==> slots[order[k]].segment != 0 && Near(ends[order[k]], fackPos)
    requires r.fack == Wrap32(fackPos)
    ensures DetectAll(r, slots, order).fack == Wrap32(FackAfter(r, fackPos, ends, order))
    ensures DetectAll(r, slots, order).reorderingSeen <==>
            r.reorderingSeen || (r.fack != 0 && LateArrival(slots, ends, order, fackPos))
  {
    hide Wrap32, Near, SignedDistance, EndSeq;
    if order == [] {
      return;
    }
    var n := |order| - 1;
    var before, last := order[..n], order[n];
    ReorderingExact(r, fackPos, slots, ends, before);
    var pos := FackAfter(r, fackPos, ends, before);
    if n > 0 {
      assert Less(slots, ends, false, order[n - 1], last);
      assert pos == fackPos || pos == ends[order[n - 1]];
    }
    assert Near(ends[last], pos) by { assert Near(ends[last], fackPos); }
    SignedDistanceExact(ends[last], pos);
    DistanceOfEqual(ends[last], pos);
    var mid := DetectAll(r, slots, before);
    assert mid.fack == Wrap32(pos) && EndSeq(slots[last]) == Wrap32(ends[last]);
    assert forall k :: 0 <= k < n ==> order[k] == before[k];
  }

  /** The first pass leaves the reordering state alone. */
  lemma {:induction false} NoteKeepsFack(r: Rack, slots: seq<Slot>, order: seq<nat>, now: u64)
    requires forall k :: 0 <= k < |order| ==> order[k] < |slots|
    ensures NoteAll(r, slots, order, now).fack == r.fack
        && NoteAll(r, slots, order, now).reorderingSeen == r.reorderingSeen
  {
    if order != [] { NoteKeepsFack(r, slots, order[..|order| - 1], now); }
  }

  /** Every tracked end can be compared with the forward-most delivered sequence. */
  ghost predicate FackInReach(slots: seq<Slot>, ends: seq<int>, fackPos: int)
    requires |ends| == |slots|
  { forall i :: 0 <= i < |slots| && slots[i].segment != 0 ==> Near(ends[i], fackPos) }

  /** A newly delivered segment, never retransmitted, ends below it. */
  ghost predicate DeliveredLate(slots: seq<Slot>, ends: seq<int>, fackPos: int)
    requires |ends| == |slots|
  { exists i :: 0 <= i < |slots| && Waiting(slots[i], 0) && !slots[i].retransmitted && ends[i] < fackPos }

  /** `fackPos'` is the forward-most of `fackPos` and the newly delivered ends. */
  ghost predicate Foremost(r: Rack, slots: seq<Slot>, ends: seq<int>, fackPos: int, fackPos': int)
    requires |ends| == |slots|
  {
    && (r.fack != 0 ==> fackPos <= fackPos')
    && (forall i :: 0 <= i < |slots| && Waiting(slots[i], 0) ==> ends[i] <= fackPos')
    && (fackPos' == fackPos || exists i :: 0 <= i < |slots| && Waiting(slots[i], 0) && ends[i] == fackPos')
  }

  /** An unset marker is compared with nothing: ascending ends never look reordered. */
  lemma {:induction false} UnsetReordering(r: Rack, slots: seq<Slot>, ends: seq<int>, order: seq<nat>)
    requires EndsMatch(slots, ends) && |ends| == |slots| && InOrder(slots, ends, false, order) && r.fack == 0
    requires forall k :: 0 <= k < |order| ==> slots[order[k]].segment != 0
    ensures DetectAll(r, slots, order).reorderingSeen == r.reorderingSeen
    ensures DetectAll(r, slots, order).fack == if order == [] then 0 else Wrap32(ends[order[|order| - 1]])
  {
    hide Wrap32, SignedDistance, EndSeq;
    if order != [] {
      var n := |order| - 1;
      UnsetReordering(r, slots, ends, order[..n]);
      if n > 0 {
        assert Less(slots, ends, false, order[n - 1], order[n]);
        SignedDistanceExact(ends[order[n]], ends[order[n - 1]]);
      }
    }
  }

  /** The marker is always the end of a delivered segment, or what it was. */
  lemma {:induction false} FackFollows(r: Rack, slots: seq<Slot>, ends: seq<int>, order: seq<nat>, fackPos: int)
    returns (fackPos': int)
    requires EndsMatch(slots, ends) && |ends| == |slots| && r.fack == Wrap32(fackPos)
    requires forall k :: 0 <= k < |order| ==> order[k] < |slots| && slots[order[k]].segment != 0
    ensures DetectAll(r, slots, order).fack == Wrap32(fackPos')
    ensures fackPos' == fackPos || exists k :: 0 <= k < |order| && ends[order[k]] == fackPos'
  {
    hide Wrap32, SignedDistance, EndSeq;
    fackPos' := fackPos;
    if order != [] {
      var n := |order| - 1;
      fackPos' := FackFollows(r, slots, ends, order[..n], fackPos);
      if DetectAll(r, slots, order).fack != Wrap32(fackPos') { fackPos' := ends[order[n]]; }
    }
  }

  /** Both passes over one ACK: reordering is declared exactly when some segment was
      delivered late, and the forward-most sequence is tracked without wrap-around. */
  lemma PassReordering(r: Rack, slots: seq<Slot>, ends: seq<int>, timeOrder: seq<nat>, endOrder: seq<nat>, now: u64,
      fackPos: int)
    returns (fackPos': int)
    requires EndsMatch(slots, ends) && |ends| == |slots| && r.fack == Wrap32(fackPos)
    requires InOrder(slots, ends, true, timeOrder) && InOrder(slots, ends, false, endOrder)
    requires VisitsAll(slots, 0, endOrder)
    ensures var r' := DetectAll(NoteAll(r, slots, timeOrder, now), slots, endOrder);
      && r'.fack == Wrap32(fackPos')
      && (fackPos' == fackPos || exists i :: 0 <= i < |slots| && Waiting(slots[i], 0) && ends[i] == fackPos')
      && (r.fack == 0 || FackInReach(slots, ends, fackPos) ==>
            && Foremost(r, slots, ends, fackPos, fackPos')
            && (r'.reorderingSeen <==> r.reorderingSeen || (r.fack != 0 && DeliveredLate(slots, ends, fackPos))))
  {
    hide NoteAll, DetectAll, EndsMatch, Wrap32, Near, LateArrival, DeliveredLate;
    NoteKeepsFack(r, slots, timeOrder, now);
    var noted := NoteAll(r, slots, timeOrder, now);
    LastIsForemost(slots, ends, endOrder);
    if r.fack == 0 {
      UnsetReordering(noted, slots, ends, endOrder);
      fackPos' := if endOrder == [] then fackPos else ends[endOrder[|endOrder| - 1]];
    } else if FackInReach(slots, ends, fackPos) {
      ReorderingExact(noted, fackPos, slots, ends, endOrder);
      LateIsDelivered(slots, ends, endOrder, fackPos);
      fackPos' := FackAfter(noted, fackPos, ends, endOrder);
    } else {
      fackPos' := FackFollows(noted, slots, ends, endOrder, fackPos);
    }
  }

  lemma LastIsForemost(slots: seq<Slot>, ends: seq<int>, order: seq<nat>)
    requires |ends| == |slots| && InOrder(slots, ends, false, order) && VisitsAll(slots, 0, order)
    ensures forall k :: 0 <= k < |order| ==> Waiting(slots[order[k]], 0)
    ensures forall i :: 0 <= i < |slots| && Waiting(slots[i], 0) ==> order != [] && ends[i] <= ends[order[|order| - 1]]
  {
    forall i | 0 <= i < |slots| && Waiting(slots[i], 0)
      ensures order != [] && ends[i] <= ends[order[|order| - 1]]
    {
      var k :| 0 <= k < |order| && order[k] == i;
      if k < |order| - 1 { assert Less(slots, ends, false, order[k], order[|order| - 1]); }
    }
  }

  lemma LateIsDelivered(slots: seq<Slot>, ends: seq<int>, order: seq<nat>, fackPos: int)
    requires |ends| == |slots| && InOrder(slots, ends, false, order) && VisitsAll(slots, 0, order)
    ensures LateArrival(slots, ends, order, fackPos) <==> DeliveredLate(slots, ends, fackPos)
  {
    if LateArrival(slots, ends, order, fackPos) {
      var k :| 0 <= k < |order| && ends[order[k]] < fackPos && !slots[order[k]].retransmitted;
      assert Waiting(slots[order[k]], 0);
    }
  }

  lemma DistanceOfEqual(x: int, y: int)
    requires Near(x, y)
    ensures Wrap32(x) == Wrap32(y) <==> x == y
  {
    SignedDistanceExact(x, y);
  }
}
