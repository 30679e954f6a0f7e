/** The per-flow delivery ledger: a growable slot table updated in place by
    transmissions, cumulative ACKs, SACK blocks and segment release. */
module Ledger {
  import opened Words
  import opened RackOrder
  import opened RackSegment
  import opened LedgerBook
  import opened RateSampling

  datatype SackRange = SackRange(left: u32, right: u32)
  /** A SACK block in unbounded sequence numbers. */
  datatype Block = Block(left: int, right: int)

  // ------------------------------------------------------- 32-bit slot arithmetic

  /** `tcp_shift_delivery_acked_payload`. */
  function AckedPayload(s: Slot, ackSeq: u32): (n: u16)
    ensures n <= s.payload
  {
    var distance := SignedDistance(ackSeq, s.seqStart);
    if distance <= 0 then 0 else if distance >= s.payload then s.payload else distance
  }

  /** `tcp_shift_delivery_slot_in_sack_range`. */
  predicate InSackRange(s: Slot, r: SackRange)
  {
    && s.segment != 0 && s.payload != 0
    && SignedDistance(s.seqStart, r.left) >= 0 && SignedDistance(r.right, EndSeq(s)) >= 0
  }

  function AfterAck(s: Slot, ackSeq: u32): Slot
  {
    if s.segment == 0 || AckedPayload(s, ackSeq) <= s.acked then s
    else s.(acked := AckedPayload(s, ackSeq))
  }

  function AfterSack(s: Slot, ranges: seq<SackRange>): Slot
  {
    if s.segment == 0 || s.acked >= s.payload then s
    else if exists r :: r in ranges && InSackRange(s, r) then s.(acked := s.payload)
    else s
  }

  // --------------------------------------- the same events in unbounded sequence space

  ghost predicate Below(slots: seq<Slot>, starts: seq<int>, ack: int, b: int)
    requires |starts| == |slots|
  { b < ack && Held(slots, starts, b) }

  ghost predicate Inside(slots: seq<Slot>, starts: seq<int>, i: int, blocks: seq<Block>)
    requires |starts| == |slots| && Occupied(slots, i)
  { exists r :: r in blocks && r.left <= starts[i] && starts[i] + slots[i].payload <= r.right }

  /** Byte b lies in a slot that some block covers completely. */
  ghost predicate Sacked(slots: seq<Slot>, starts: seq<int>, blocks: seq<Block>, b: int)
    requires |starts| == |slots|
  { exists i :: Holds(slots, starts, i, b) && Inside(slots, starts, i, blocks) }

  ghost predicate AckInReach(slots: seq<Slot>, starts: seq<int>, ack: int)
    requires |starts| == |slots|
  { forall i :: Occupied(slots, i) ==> Near(ack, starts[i]) }

  ghost predicate BlocksInReach(slots: seq<Slot>, starts: seq<int>, blocks: seq<Block>)
    requires |starts| == |slots|
  {
    forall i, r :: Occupied(slots, i) && r in blocks ==>
      Near(starts[i], r.left) && Near(r.right, starts[i] + slots[i].payload)
  }

  ghost predicate Wraps(ranges: seq<SackRange>, blocks: seq<Block>)
  {
    && |ranges| == |blocks|
    && forall m :: 0 <= m < |ranges| ==> ranges[m] == SackRange(Wrap32(blocks[m].left), Wrap32(blocks[m].right))
  }

  /** Within reach, the signed 32-bit distance gives the true prefix length. */
  lemma AckedPayloadExact(slots: seq<Slot>, k: Book, i: int, ack: int)
    requires Tracks(slots, k) && Occupied(slots, i) && AckInReach(slots, k.starts, ack)
    ensures AckedPayload(slots[i], Wrap32(ack)) == Min(slots[i].payload, Max(0, ack - k.starts[i]))
  {
    hide Separated, Accounted, SignedDistance;
    SignedDistanceExact(ack, k.starts[i]);
  }

  lemma InSackExact(slots: seq<Slot>, k: Book, i: int, ranges: seq<SackRange>, blocks: seq<Block>)
    requires Tracks(slots, k) && Occupied(slots, i)
    requires Wraps(ranges, blocks) && BlocksInReach(slots, k.starts, blocks)
    ensures (exists r :: r in ranges && InSackRange(slots[i], r)) <==> Inside(slots, k.starts, i, blocks)
  {
    var s, start := slots[i], k.starts[i];
    Wrap32Add(start, s.payload);
    assert EndSeq(s) == Wrap32(start + s.payload);
    forall m | 0 <= m < |ranges|
      ensures InSackRange(s, ranges[m]) <==> blocks[m].left <= start && start + s.payload <= blocks[m].right
    {
      hide Separated, Accounted, SignedDistance, Wrap32, EndSeq;
      assert blocks[m] in blocks;
      SignedDistanceExact(start, blocks[m].left);
      SignedDistanceExact(blocks[m].right, start + s.payload);
    }
    hide InSackRange, Tracks, BlocksInReach;
    if r :| r in ranges && InSackRange(s, r) {
      var m :| 0 <= m < |ranges| && ranges[m] == r;
      assert blocks[m] in blocks;
    }
    if Inside(slots, k.starts, i, blocks) {
      var r :| r in blocks && r.left <= start && start + s.payload <= r.right;
      var m :| 0 <= m < |blocks| && blocks[m] == r;
      assert ranges[m] in ranges;
    }
  }

  function SweptByAck(slots: seq<Slot>, ackSeq: u32): (r: seq<Slot>)
    ensures |r| == |slots|
  { seq(|slots|, i requires 0 <= i < |slots| => AfterAck(slots[i], ackSeq)) }

  function SweptBySack(slots: seq<Slot>, ranges: seq<SackRange>): (r: seq<Slot>)
    ensures |r| == |slots|
  { seq(|slots|, i requires 0 <= i < |slots| => AfterSack(slots[i], ranges)) }

  // ------------------------------------------------------------ one sweep of the table

  /** The covered set only gains bytes that tracked slots hold. */
  ghost predicate Gains(slots: seq<Slot>, k: Book, k': Book)
    requires |k.starts| == |slots|
  {
    && k' == k.(covered := k'.covered) && k.covered <= k'.covered
    && forall b :: b in k'.covered && b !in k.covered ==> Held(slots, k.starts, b)
  }

  ghost predicate Touched(was: seq<Slot>, cur: seq<Slot>, i: int)
    requires |was| == |cur| && 0 <= i < |was|
  { cur[i].acked != was[i].acked }

  /** `candidate` is the most recently transmitted of the slots touched below n, or -1. */
  ghost predicate Newest(was: seq<Slot>, cur: seq<Slot>, ends: seq<int>, n: int, candidate: int)
    requires |was| == |cur| == |ends| && 0 <= n <= |was|
  {
    && -1 <= candidate < n
    && (candidate >= 0 ==> Touched(was, cur, candidate))
    && forall i :: 0 <= i < n && Touched(was, cur, i) ==>
         candidate >= 0 && (i == candidate || TimeLess(was, ends, i, candidate))
  }

  /** `tcp_shift_delivery_candidate_newer` decides the transmission order. */
  lemma NewerExact(slots: seq<Slot>, ends: seq<int>, i: int, j: int)
    requires EndsMatch(slots, ends) && Occupied(slots, i) && Occupied(slots, j) && i != j
    ensures SentAfter(slots[i].txNs, EndSeq(slots[i]), slots[j].txNs, EndSeq(slots[j])) <==> TimeLess(slots, ends, j, i)
  {
    SignedDistanceExact(ends[i], ends[j]);
  }

  lemma AckReached(was: seq<Slot>, k: Book, cur: seq<Slot>, k': Book, ack: int)
    requires Tracks(was, k) && Tracks(cur, k') && |cur| == |was| && Gains(was, k, k') && AckInReach(was, k.starts, ack)
    requires forall i :: 0 <= i < |was| ==> cur[i] == AfterAck(was[i], Wrap32(ack))
    ensures forall b :: b in k'.covered <==> b in k.covered || Below(was, k.starts, ack, b)
  {
    hide Wrap32, Shaped, Separated, Closed, AckInReach;
    forall b | Held(was, k.starts, b) ensures b in k'.covered <==> b in k.covered || b < ack {
      var i :| Holds(was, k.starts, i, b);
      AckedPayloadExact(was, k, i, ack);
      assert Holds(cur, k.starts, i, b);
    }
  }

  lemma SackReached(was: seq<Slot>, k: Book, cur: seq<Slot>, k': Book, ranges: seq<SackRange>, blocks: seq<Block>)
    requires Tracks(was, k) && Tracks(cur, k') && |cur| == |was| && Gains(was, k, k')
    requires Wraps(ranges, blocks) && BlocksInReach(was, k.starts, blocks)
    requires forall i :: 0 <= i < |was| ==> cur[i] == AfterSack(was[i], ranges)
    ensures forall b :: b in k'.covered <==> b in k.covered || Sacked(was, k.starts, blocks, b)
  {
    hide Wrap32, Shaped, Separated, Closed, BlocksInReach, InSackRange, Wraps, Inside;
    forall b | Held(was, k.starts, b)
      ensures b in k'.covered <==> b in k.covered || Sacked(was, k.starts, blocks, b)
    {
      var i :| Holds(was, k.starts, i, b);
      InSackExact(was, k, i, ranges, blocks);
      assert Holds(cur, k.starts, i, b);
      SackedBy(was, k, blocks, i, b);
    }
  }

  lemma SackedBy(slots: seq<Slot>, k: Book, blocks: seq<Block>, i: int, b: int)
    requires Tracks(slots, k) && Holds(slots, k.starts, i, b)
    ensures Sacked(slots, k.starts, blocks, b) <==> Inside(slots, k.starts, i, blocks)
  {
    hide Shaped, Separated, Accounted, Inside;
    if Sacked(slots, k.starts, blocks, b) {
      var j :| Holds(slots, k.starts, j, b) && Inside(slots, k.starts, j, blocks);
      OneHolder(slots, k.starts, i, j, b);
    }
  }

  // --------------------------------------------------------------------- the ledger

  /** No slot remembers more delivered bytes at its transmission than there are now. */
  predicate Snapshots(slots: seq<Slot>, delivered: nat)
  {
    forall i :: 0 <= i < |slots| ==> slots[i].deliveredAtSend <= delivered
  }

  /** No slot is between the two RACK passes. */
  predicate Unstaged(slots: seq<Slot>)
  {
    forall i :: 0 <= i < |slots| ==> slots[i].rackStage != 1
  }

  /** Slot contents after its segment is transmitted again. */
  function Resent(s: Slot, now: u64, delivered: nat, snap: Snapshot): Slot
  {
    s.(txNs := now, deliveredAtSend := delivered, retransmitted := true, rackStage := 0, snap := snap)
  }

  /** Slot contents after a first transmission. */
  function FirstSent(segment: nat, seqStart: u32, payload: u16, now: u64, delivered: nat, snap: Snapshot): Slot
  { Slot(segment, now, delivered, seqStart, payload, 0, false, 0, snap) }

  /** In-flight bytes a retransmission records: the ledger's outstanding payload, at
      least this segment's own remainder. */
  function PriorOnResend(slots: seq<Slot>, s: Slot): u32
  { Max(Min(Outstanding(slots), U32_MAX), if s.payload > s.acked then s.payload - s.acked else 0) }

  /** In-flight bytes a first transmission records: the span including itself. */
  function PriorOnSend(raw: u32, payload: u16): u32 { Min(raw + payload, U32_MAX) }

  /** What a transmission says about where it is in the flight. */
  datatype Outgoing = Outgoing(flightStart: bool, raw: u32)

  function Segments(slots: seq<Slot>): set<nat> { set i | 0 <= i < |slots| :: slots[i].segment }

  const INITIAL_SLOTS := 8

  function GrownCapacity(capacity: nat, maximum: nat): nat
  {
    Min(maximum, if capacity == 0 then INITIAL_SLOTS else 2 * capacity)
  }

  lemma TracksLength(slots: seq<Slot>, k: Book)
    requires Tracks(slots, k)
    ensures |k.starts| == |slots|
  {
  }

  lemma EnlargeRest(slots: seq<Slot>, delivered: nat, more: nat)
    requires Unstaged(slots) && Snapshots(slots, delivered)
    ensures var larger := slots + seq(more, _ => EMPTY); Unstaged(larger) && Snapshots(larger, delivered)
  {
  }

  lemma EnterableGrown(slots: seq<Slot>, k: Book, more: nat, s: Slot, start: int)
    requires |k.starts| == |slots| && Enterable(slots, k, s, start)
    ensures Enterable(slots + seq(more, _ => EMPTY), k.(starts := k.starts + seq(more, _ => 0)), s, start)
  {
    hide Wrap32, Interval;
    forall j ensures Occupied(slots + seq(more, _ => EMPTY), j) <==> Occupied(slots, j) {
    }
  }

  lemma EnterRest(slots: seq<Slot>, delivered: nat, i: nat, s: Slot)
    requires Unstaged(slots) && Snapshots(slots, delivered) && i < |slots|
    requires !Occupied(slots, i) && s.deliveredAtSend <= delivered && s.rackStage == 0 && s.segment != 0 && s.acked == 0
    ensures Unstaged(slots[i := s]) && Snapshots(slots[i := s], delivered)
    ensures Outstanding(slots[i := s]) == Outstanding(slots) + s.payload
  {
    OutstandingUpdate(slots, i, s);
  }

  function Open(s: Slot): nat { if s.segment != 0 && s.payload > s.acked then s.payload - s.acked else 0 }

  lemma {:induction false} OutstandingUpdate(slots: seq<Slot>, i: nat, s: Slot)
    requires i < |slots|
    ensures Outstanding(slots[i := s]) == Outstanding(slots) - Open(slots[i]) + Open(s)
  {
    var n := |slots| - 1;
    if i == n {
      assert slots[i := s][..n] == slots[..n];
    } else {
      assert slots[i := s][..n] == slots[..n][i := s];
      OutstandingUpdate(slots[..n], i, s);
    }
  }

  /** The remainder of a tracked segment is part of the outstanding payload, so the
      second bound of a retransmission's in-flight record never shows. */
  lemma ResendPrior(slots: seq<Slot>, i: nat)
    requires i < |slots| && slots[i].segment != 0
    ensures PriorOnResend(slots, slots[i]) == Min(Outstanding(slots), U32_MAX)
  {
    OutstandingUpdate(slots, i, EMPTY);
  }

  lemma {:induction false} OutstandingPadded(slots: seq<Slot>, more: nat)
    ensures Outstanding(slots + seq(more, _ => EMPTY)) == Outstanding(slots)
  {
    var larger := slots + seq(more, _ => EMPTY);
    if more == 0 {
      assert larger == slots;
    } else {
      assert larger[..|larger| - 1] == slots + seq(more - 1, _ => EMPTY);
      OutstandingPadded(slots, more - 1);
    }
  }

  /** Fields a sweep leaves alone. */
  predicate SameSend(s: Slot, t: Slot) { s.(acked := 0) == t.(acked := 0) }

  predicate Kept(s: Slot, t: Slot) { SameSend(s, t) && (s.segment == 0 ==> t == s) }

  lemma AckKeepsSend(was: seq<Slot>, ackSeq: u32)
    ensures forall i :: 0 <= i < |was| ==> Kept(was[i], SweptByAck(was, ackSeq)[i])
  {
  }

  lemma SackKeepsSend(was: seq<Slot>, ranges: seq<SackRange>)
    ensures forall i :: 0 <= i < |was| ==> Kept(was[i], SweptBySack(was, ranges)[i])
  {
  }

  /** Both RACK passes ran once over exactly the slots waiting in `slots`. */
  ghost predicate RackPassed(slots: seq<Slot>, ends: seq<int>, rack: Rack, rack': Rack,
                             timeOrder: seq<nat>, endOrder: seq<nat>, now: u64)
    requires |ends| == |slots|
  {
    && InOrder(slots, ends, true, timeOrder) && VisitsAll(slots, 0, timeOrder)
    && InOrder(slots, ends, false, endOrder) && VisitsAll(slots, 0, endOrder)
    && rack' == DetectAll(NoteAll(rack, slots, timeOrder, now), slots, endOrder)
  }

  /** The unbounded positions of the forward-most delivered sequence and of the end of
      RACK.segment. */
  datatype Positions = Positions(fack: int, segment: int)

  ghost predicate MarkersAt(rack: Rack, pos: Positions)
  { rack.fack == Wrap32(pos.fack) && rack.endSeq == Wrap32(pos.segment) }

  /** Either marker is unset, or comparable with every tracked end. */
  ghost predicate InReach(slots: seq<Slot>, starts: seq<int>, rack: Rack, pos: Positions)
  {
    && |starts| == |slots|
    && (rack.fack == 0 || FackInReach(slots, Ends(slots, starts), pos.fack))
    && (rack.xmitTs == 0 || FackInReach(slots, Ends(slots, starts), pos.segment))
  }

  /** A segment ending at `end` can be compared with both markers. */
  predicate EndNear(end: int, rack: Rack, pos: Positions)
  { (rack.fack == 0 || Near(end, pos.fack)) && (rack.xmitTs == 0 || Near(end, pos.segment)) }

  /** What both passes decided: reordering is declared exactly when a segment was
      delivered late, RACK.segment is the delivered segment sent last, and the markers
      stay in reach. */
  ghost predicate RackJudged(slots: seq<Slot>, starts: seq<int>, rack: Rack, rack': Rack, pos: Positions,
      pos': Positions, order: seq<nat>, now: u64)
    requires |starts| == |slots|
  {
    && MinimumJudged(slots, rack, rack', order, now)
    && (InReach(slots, starts, rack, pos) ==>
          && Foremost(rack, slots, Ends(slots, starts), pos.fack, pos'.fack)
          && (rack'.reorderingSeen <==>
                rack.reorderingSeen || (rack.fack != 0 && DeliveredLate(slots, Ends(slots, starts), pos.fack)))
          && SegmentJudged(slots, Ends(slots, starts), rack, rack', pos.segment, pos'.segment, order, now)
          && InReach(slots, starts, rack', pos'))
  }

  lemma JudgedReach(slots: seq<Slot>, starts: seq<int>, rack: Rack, rack': Rack, pos: Positions, pos': Positions,
      order: seq<nat>, now: u64)
    requires |starts| == |slots| && RackJudged(slots, starts, rack, rack', pos, pos', order, now)
    ensures InReach(slots, starts, rack, pos) ==> InReach(slots, starts, rack', pos')
  {
    hide InReach;
  }

  /** Reach depends only on where the tracked segments are. */
  lemma ReachSame(was: seq<Slot>, cur: seq<Slot>, starts: seq<int>, rack: Rack, pos: Positions)
    requires |was| == |cur| == |starts|
    requires forall i :: 0 <= i < |was| ==> cur[i].segment == was[i].segment && cur[i].payload == was[i].payload
    ensures InReach(was, starts, rack, pos) <==> InReach(cur, starts, rack, pos)
  {
    assert forall i :: 0 <= i < |was| ==> Ends(was, starts)[i] == Ends(cur, starts)[i];
  }

  lemma ReachGrown(slots: seq<Slot>, starts: seq<int>, more: nat, rack: Rack, pos: Positions)
    requires InReach(slots, starts, rack, pos)
    ensures InReach(slots + seq(more, _ => EMPTY), starts + seq(more, _ => 0), rack, pos)
  {
    var larger := slots + seq(more, _ => EMPTY);
    assert forall i :: |slots| <= i < |larger| ==> larger[i] == EMPTY;
    assert forall i :: 0 <= i < |slots| ==> Ends(larger, starts + seq(more, _ => 0))[i] == Ends(slots, starts)[i];
  }

  lemma ReachChanged(slots: seq<Slot>, starts: seq<int>, i: nat, s: Slot, start: int, rack: Rack, pos: Positions)
    requires InReach(slots, starts, rack, pos) && i < |slots|
    requires s.segment == 0 || EndNear(start + s.payload, rack, pos)
    ensures InReach(slots[i := s], starts[i := start], rack, pos)
  {
    var ends, ends' := Ends(slots, starts), Ends(slots[i := s], starts[i := start]);
    assert forall j :: 0 <= j < |slots| && j != i ==> ends'[j] == ends[j];
    assert ends'[i] == start + s.payload;
  }

  lemma ReachStaged(slots: seq<Slot>, starts: seq<int>, order: seq<nat>, rack: Rack, pos: Positions)
    requires |starts| == |slots|
    ensures InReach(slots, starts, rack, pos) <==> InReach(Staged(slots, order, 2), starts, rack, pos)
  {
    ReachSame(slots, Staged(slots, order, 2), starts, rack, pos);
  }

  /** A marker that is a tracked end is in reach of every other. */
  lemma ReachFollows(slots: seq<Slot>, starts: seq<int>, rack: Rack, rack': Rack, pos: Positions, pos': Positions)
    requires |starts| == |slots| && EndsMatch(slots, Ends(slots, starts)) && InReach(slots, starts, rack, pos)
    requires (pos'.fack == pos.fack && (rack'.fack == 0 || rack.fack != 0))
      || TrackedEnd(slots, Ends(slots, starts), pos'.fack)
    requires (pos'.segment == pos.segment && (rack'.xmitTs == 0 || rack.xmitTs != 0))
      || TrackedEnd(slots, Ends(slots, starts), pos'.segment)
    ensures InReach(slots, starts, rack', pos')
  {
    hide Wrap32, Ends;
  }

  /** A sample is taken when and only when bytes were delivered, from the most
      recently transmitted slot among those that delivered any; what it measures is
      read off the history. */
  ghost predicate Sampled(was: seq<Slot>, swept: seq<Slot>, ends: seq<int>, log: Log, candidate: int,
                          sample: RateSample, before: nat, after: nat, now: u64)
    requires |was| == |swept| == |ends|
  {
    && Newest(was, swept, ends, |was|, candidate)
    && if after == before then sample == NoSample
       else 0 <= candidate && Measured(was, log, candidate, sample, after, now)
  }

  /** The history so far, and each tracked segment's place in it. */
  datatype Log = Log(history: seq<Moment>, traces: seq<Trace>)

  ghost predicate Measured(was: seq<Slot>, log: Log, candidate: nat, sample: RateSample, after: nat, now: u64)
  {
    && candidate < |was| == |log.traces| && was[candidate].deliveredAtSend < after
    && sample == SampleOf(was[candidate], after, now)
    && Measures(sample, was[candidate], log.traces[candidate], log.history, after, now)
  }

  /** Between the SACK and the cumulative part of one ACK: the delivered count, the
      clocks, the history, and the slots the two samples came from. */
  datatype Midway = Midway(delivered: nat, clocks: Clocks, history: seq<Moment>, sackFrom: int, ackFrom: int)

  /** The clocks and the history after that sample. */
  ghost predicate ClocksMoved(was: seq<Slot>, candidate: int, c: Clocks, c': Clocks, h: seq<Moment>, h': seq<Moment>,
      before: nat, after: nat, now: u64)
  {
    if after == before then c' == c && h' == h
    else
      && 0 <= candidate < |was| && c' == Delivered(c, was[candidate], after, now)
      && h' == h + [Delivery(now, was[candidate].txNs, after)]
  }

  /** Delivered bytes imply a touched slot, hence a candidate. */
  lemma SweepTouched(was: seq<Slot>, swept: seq<Slot>, k: Book, k': Book, candidate: int, added: nat)
    requires Tracks(was, k) && Tracks(swept, k') && |swept| == |was| && |k.starts| == |was|
    requires Gains(was, k, k') && |k'.covered| == |k.covered| + added
    requires forall i :: 0 <= i < |was| ==> Kept(was[i], swept[i])
    requires Newest(was, swept, Ends(was, k.starts), |was|, candidate)
    ensures -1 <= candidate < |was| && (added > 0 ==> candidate >= 0 && was[candidate].segment != 0)
    ensures Newest(was, swept, Ends(swept, k.starts), |was|, candidate)
  {
    hide Shaped, Separated, Closed;
    assert Ends(was, k.starts) == Ends(swept, k.starts);
    if added > 0 {
      var b := NewMember(k.covered, k'.covered);
      var i :| Holds(was, k.starts, i, b);
      assert Holds(swept, k.starts, i, b);
      assert Touched(was, swept, i);
    }
  }

  /** Marking slots as processed changes neither coverage nor send records. */
  lemma StagedRest(was: seq<Slot>, cur: seq<Slot>, order: seq<nat>, delivered: nat)
    requires |was| == |cur| && Unstaged(was) && Snapshots(was, delivered)
    requires forall i :: 0 <= i < |was| ==> SameSend(was[i], cur[i])
    ensures var marked := Staged(cur, order, 2);
      && Unstaged(marked) && Snapshots(marked, delivered)
      && (forall i :: 0 <= i < |cur| ==>
           SameCoverage(cur[i], marked[i]) && SameSend(was[i].(rackStage := 0), marked[i].(rackStage := 0)))
  {
  }

  /** A sample reads only what a sweep and the RACK marks leave alone. */
  lemma SampleReads(s: Slot, t: Slot, delivered: nat, now: u64)
    requires s.(acked := 0, rackStage := 0) == t.(acked := 0, rackStage := 0) && s.deliveredAtSend <= delivered
    ensures SampleOf(s, delivered, now) == SampleOf(t, delivered, now)
  {
    hide BytesPerSecond;
  }

  lemma StagedSend(was: seq<Slot>, cur: seq<Slot>, order: seq<nat>, i: nat)
    requires |was| == |cur| && i < |was| && SameSend(was[i], cur[i])
    ensures Staged(cur, order, 2)[i].(acked := 0, rackStage := 0) == was[i].(acked := 0, rackStage := 0)
  {
  }

  lemma EnterableSnap(slots: seq<Slot>, k: Book, s: Slot, snap: Snapshot, start: int)
    requires |k.starts| == |slots| && Enterable(slots, k, s, start)
    ensures Enterable(slots, k, s.(snap := snap), start)
  {
  }

  lemma UnstagedWaits(was: seq<Slot>, cur: seq<Slot>)
    requires |was| == |cur| && Unstaged(was) && forall i :: 0 <= i < |was| ==> SameSend(was[i], cur[i])
    ensures NoneWaiting(cur, 1)
  {
  }

  lemma StagedNone(cur: seq<Slot>)
    ensures Staged(cur, [], 2) == cur
  {
  }

  /** The ACK carries new cumulative progress: SND.UNA < SEG.ACK <= SND.NXT. */
  predicate Advances(ackSeq: u32, lastAck: u32, sndNxt: u32)
  {
    SignedDistance(ackSeq, lastAck) > 0 && SignedDistance(sndNxt, ackSeq) >= 0
  }

  lemma AdvancesExact(ack: int, last: int, next: int)
    requires Near(ack, last) && Near(next, ack)
    ensures Advances(Wrap32(ack), Wrap32(last), Wrap32(next)) <==> last < ack <= next
  {
    hide Wrap32, SignedDistance;
    SignedDistanceExact(ack, last);
    SignedDistanceExact(next, ack);
  }

  lemma HoldsSame(was: seq<Slot>, cur: seq<Slot>, starts: seq<int>, ack: int)
    requires |was| == |cur| == |starts| && forall i :: 0 <= i < |was| ==> SameSend(was[i], cur[i])
    ensures forall b :: Below(cur, starts, ack, b) <==> Below(was, starts, ack, b)
    ensures AckInReach(was, starts, ack) ==> AckInReach(cur, starts, ack)
  {
    forall i, b ensures Holds(cur, starts, i, b) <==> Holds(was, starts, i, b) {
    }
  }

  lemma NothingSacked(was: seq<Slot>, starts: seq<int>, ranges: seq<SackRange>, blocks: seq<Block>)
    requires |was| == |starts| && ranges == [] && Wraps(ranges, blocks)
    ensures SweptBySack(was, ranges) == was && forall b :: !Sacked(was, starts, blocks, b)
  {
  }

  lemma SweepStart(was: seq<Slot>, k: Book, ends: seq<int>)
    requires |k.starts| == |was| == |ends|
    ensures Gains(was, k, k) && Newest(was, was, ends, 0, -1)
  {
  }

  lemma GainsShape(was: seq<Slot>, k: Book, k': Book)
    requires |k.starts| == |was| && Gains(was, k, k')
    ensures k' == k.(covered := k'.covered)
  {
  }

  lemma NewestSkip(was: seq<Slot>, cur: seq<Slot>, ends: seq<int>, n: nat, candidate: int)
    requires |was| == |cur| == |ends| && n < |was| && Newest(was, cur, ends, n, candidate) && cur[n] == was[n]
    ensures Newest(was, cur, ends, n + 1, candidate)
  {
  }

  /** Keeping the slot that was sent later keeps the most recent one. */
  lemma NewestStep(was: seq<Slot>, k: Book, cur: seq<Slot>, cur': seq<Slot>, ends: seq<int>, n: nat, candidate: int)
    requires Tracks(was, k) && |was| == |cur| && ends == Ends(was, k.starts) && n < |was| && candidate < n
    requires |cur'| == |cur| && forall i :: 0 <= i < |cur| && i != n ==> cur'[i] == cur[i]
    requires Newest(was, cur, ends, n, candidate) && Occupied(was, n) && was[n].acked != cur'[n].acked
    requires forall i :: 0 <= i < n ==>
      && cur[i].segment == was[i].segment && cur[i].txNs == was[i].txNs && EndSeq(cur[i]) == EndSeq(was[i])
      && (cur[i].segment == 0 ==> cur[i].acked == was[i].acked)
    ensures -1 <= candidate
    ensures Newest(was, cur', ends, n + 1,
              if candidate == -1 ||
                 SentAfter(was[n].txNs, EndSeq(was[n]), cur[candidate].txNs, EndSeq(cur[candidate]))
              then n else candidate)
  {
    hide Tracks, SentAfter, EndSeq, Ends;
    TracksEnds(was, k);
    if candidate >= 0 {
      assert Occupied(was, candidate);
      NewerExact(was, ends, n, candidate);
    }
    NewestTotal(was, cur, cur', ends, n, candidate);
  }

  lemma NewestTotal(was: seq<Slot>, cur: seq<Slot>, cur': seq<Slot>, ends: seq<int>, n: nat, candidate: int)
    requires EndsMatch(was, ends) && |was| == |cur| == |cur'| && n < |was| && Newest(was, cur, ends, n, candidate)
    requires Occupied(was, n) && was[n].acked != cur'[n].acked && (candidate >= 0 ==> Occupied(was, candidate))
    requires forall i :: 0 <= i < |cur| && i != n ==> cur'[i] == cur[i]
    ensures candidate == -1 ==> Newest(was, cur', ends, n + 1, n)
    ensures candidate >= 0 && TimeLess(was, ends, candidate, n) ==> Newest(was, cur', ends, n + 1, n)
    ensures candidate >= 0 && !TimeLess(was, ends, candidate, n) ==> Newest(was, cur', ends, n + 1, candidate)
  {
    hide EndSeq, Near;
    assert Touched(was, cur', n);
    assert forall i :: 0 <= i < n ==> (Touched(was, cur', i) <==> Touched(was, cur, i));
  }

  lemma SlotShape(slots: seq<Slot>, k: Book, i: int)
    requires Tracks(slots, k) && Occupied(slots, i)
    ensures |k.starts| == |slots| && slots[i].acked <= slots[i].payload && 0 < slots[i].payload
    ensures slots[i].seqStart == Wrap32(k.starts[i])
  {
  }

  lemma LeftCovered(slots: seq<Slot>, k: Book, i: int)
    requires |k.starts| == |slots| && Occupied(slots, i) && slots[i].acked <= slots[i].payload
    ensures Left(slots, k, i).covered == k.covered && Left(slots, k, i).starts == k.starts
  {
  }

  lemma GainsStep(was: seq<Slot>, start: Book, cur: seq<Slot>, k: Book, i: int, n: u16)
    requires |start.starts| == |was| == |cur| && Gains(was, start, k)
    requires Occupied(cur, i) && cur[i] == was[i] && cur[i].acked <= n <= cur[i].payload
    ensures Gains(was, start, Advanced(cur, k, i, n))
  {
    hide Interval;
    var k' := Advanced(cur, k, i, n);
    forall b | b in k'.covered && b !in start.covered ensures Held(was, start.starts, b) {
      if b !in k.covered { assert Holds(was, start.starts, i, b); }
    }
  }

  /** A newly tracked segment has been sent once, now. */
  ghost predicate TracedAnew(before: seq<Trace>, log: Log, at: nat)
  {
    && at < |log.traces| && log.traces[at] == Trace(|log.history|, 1)
    && forall i :: 0 <= i < |before| && i < |log.traces| && i != at ==> log.traces[i] == before[i]
  }

  lemma PriorKept(c: Clocks, now: u64, prior: u32)
    ensures SnapshotAt(c, now, prior).priorInflight == prior
  {
  }

  lemma SentBefore(slots: seq<Slot>, log: Log, i: nat)
    requires Traced(slots, log.traces, log.history) && i < |slots| && slots[i].segment != 0
    ensures i < |log.traces| && log.traces[i].sends >= 1
  {
  }

  lemma SentAt(slots: seq<Slot>, log: Log, i: nat)
    requires Traced(slots, log.traces, log.history) && i < |slots| && slots[i].segment != 0
    ensures i < |log.traces| && SlotTraced(slots[i], log.traces[i], log.history) && slots[i].txNs != 0
  {
  }

  class DeliveryLedger {
    var slots: array<Slot>
    var delivered: nat
    var rack: Rack
    var clocks: Clocks
    const maxSlots: nat
    ghost var book: Book
    ghost var pos: Positions
    /** What has happened so far, and each tracked segment's place in it. */
    ghost var log: Log

    /** The table tracks the book, and the counter counts delivered bytes once each. */
    ghost predicate Valid()
      reads this, slots
    {
      && Tracks(slots[..], book) && delivered == |book.covered|
      && Unstaged(slots[..]) && Snapshots(slots[..], delivered)
      && MarkersAt(rack, pos) && Traced(slots[..], log.traces, log.history)
      && ClocksTraced(clocks, delivered, log.history)
      && (clocks.limitedUntil != 0 ==> delivered <= clocks.limitedUntil)
    }

    constructor (maxSlots: nat)
      ensures Valid() && fresh(slots) && delivered == 0 && slots.Length == 0
      ensures book == Book([], {}, {}, {}) && this.maxSlots == maxSlots && clocks == Clocks(0, 0, 0)
      ensures rack == Rack(0, 0, 0, 0, 0, 0, false) && pos == Positions(0, 0) && log == Log([], [])
    {
      this.maxSlots := maxSlots;
      slots := new Slot[0];
      delivered := 0;
      rack := Rack(0, 0, 0, 0, 0, 0, false);
      clocks := Clocks(0, 0, 0);
      book, pos, log := Book([], {}, {}, {}), Positions(0, 0), Log([], []);
    }

    /** The next reordering verdict will be exact. Kept by every method; a first
        transmission must itself be within reach of the marker. */
    ghost predicate Reachable()
      reads this, slots
    { InReach(slots[..], book.starts, rack, pos) }

    /** Conservation, for every reachable state. */
    lemma Balance()
      requires Valid()
      ensures |book.sent| == delivered + Outstanding(slots[..]) + |book.abandoned|
    {
      hide Tracks;
      Conservation(slots[..], book);
    }

    /** `tcp_shift_delivery_find`; the table length means "not found". */
    method Find(segment: nat) returns (index: nat)
      ensures index <= slots.Length
      ensures index < slots.Length ==> slots[index].segment == segment
      ensures forall i :: 0 <= i < index ==> slots[i].segment != segment
    {
      index := 0;
      while index < slots.Length
        invariant index <= slots.Length
        invariant forall i :: 0 <= i < index ==> slots[i].segment != segment
      {
        if slots[index].segment == segment { return; }
        index := index + 1;
      }
    }

    /** `tcp_shift_delivery_grow`: a bigger table with the same contents. */
    method Grow(memoryOk: bool) returns (ok: bool)
      requires Valid()
      modifies this
      ensures Valid() && delivered == old(delivered) && rack == old(rack) && pos == old(pos)
          && clocks == old(clocks) && log.history == old(log.history)
      ensures book == old(book).(starts := book.starts) && (old(Reachable()) ==> Reachable())
      ensures ok == (memoryOk && old(slots.Length) < maxSlots)
      ensures !ok ==> slots == old(slots) && book == old(book) && log == old(log)
      ensures ok ==> fresh(slots) && old(slots.Length) < slots.Length <= maxSlots
      ensures ok ==>
        slots.Length == Min(maxSlots, if old(slots.Length) == 0 then 8 else 2 * old(slots.Length))
      ensures ok ==> slots[..] == old(slots[..]) + seq(slots.Length - old(slots.Length), _ => EMPTY)
      ensures ok ==> book.starts == old(book.starts) + seq(slots.Length - old(slots.Length), _ => 0)
      ensures ok ==> log.traces == old(log.traces) + seq(slots.Length - old(slots.Length), _ => Trace(0, 0))
    {
      hide Tracks, Unstaged, Snapshots, InReach, Traced, ClocksTraced;
      if slots.Length >= maxSlots || !memoryOk { return false; }
      ghost var was := slots[..];
      var more := GrownCapacity(slots.Length, maxSlots) - slots.Length;
      var larger := new Slot[slots.Length + more];
      forall i | 0 <= i < larger.Length {
        larger[i] := if i < slots.Length then slots[i] else EMPTY;
      }
      assert larger[..] == was + seq(more, _ => EMPTY);
      Enlarge(was, book, more);
      EnlargeRest(was, delivered, more);
      if Reachable() { ReachGrown(was, book.starts, more, rack, pos); }
      TracksLength(was, book);
      TracedGrown(was, log.traces, log.history, more);
      log := log.(traces := log.traces + seq(more, _ => Trace(0, 0)));
      book := book.(starts := book.starts + seq(more, _ => 0));
      slots := larger;
      return true;
    }

    /** `tcp_shift_lwip_cc_on_segment_tx`. A known segment's slot is refreshed and
        its bytes are not entered again; a new segment enters its bytes at an
        empty slot, growing the table when none is left. */
    method OnSegmentTx(segment: nat, seqStart: u32, payload: u16, out: Outgoing, now: u64, memoryOk: bool,
        ghost start: int)
      returns (ghost at: nat, ghost entered: bool)
      requires Valid() && seqStart == Wrap32(start)
      requires segment != 0 && payload != 0 && segment !in Segments(slots[..]) ==>
        Enterable(slots[..], book, FirstSent(segment, seqStart, payload, now, delivered, EMPTY.snap), start)
      modifies this, slots
      ensures Valid() && delivered == old(delivered) && rack == old(rack) && pos == old(pos)
      ensures old(Reachable()) && EndNear(start + payload, rack, pos) ==> Reachable()
      ensures var active := segment != 0 && payload != 0 && now != 0;
        var known := segment in Segments(old(slots[..]));
        && clocks == (if active then FlightStarted(old(clocks), now, out.flightStart) else old(clocks))
        && log.history == old(log.history) + (if active && out.flightStart then [FlightStart(now)] else [])
        && (!active || (!known && !entered) ==>
              && slots == old(slots) && slots[..] == old(slots[..]) && book == old(book)
              && log.traces == old(log.traces))
        && (active && known ==>
              && slots == old(slots) && book == old(book) && at < slots.Length && old(slots[..])[at].segment == segment
              && slots[..] == old(slots[..])[at := Resent(old(slots[..])[at], now, delivered,
                   SnapshotAt(clocks, now, PriorOnResend(old(slots[..]), old(slots[..])[at])))]
              && at < |old(log.traces)|
              && log.traces == old(log.traces)[at := Trace(|log.history|, old(log.traces)[at].sends + 1)])
        && (active && !known ==>
             (entered <==> 0 in Segments(old(slots[..])) || (memoryOk && old(slots.Length) < maxSlots)))
        && (entered ==>
              && active && !known && at < slots.Length
              && slots[at] == FirstSent(segment, seqStart, payload, now, delivered,
                                        SnapshotAt(clocks, now, PriorOnSend(out.raw, payload)))
              && book == Entered(old(book).(starts := book.starts), at, slots[at], start)
              && TracedAnew(old(log.traces), log, at)
              && Outstanding(slots[..]) == Outstanding(old(slots[..])) + payload)
    {
      hide InReach, Traced, ClocksTraced, Tracks, Unstaged, Snapshots, MarkersAt, SnapshotAt, Entered, TracedAnew,
        Outstanding, Enterable, Resent, PriorOnResend, EndNear, Near, Wrap32;
      at, entered := 0, false;
      if segment == 0 || payload == 0 || now == 0 { return; }
      if out.flightStart { StartFlight(now); }
      var index := Find(segment);
      if index < slots.Length {
        at := index;
        Retransmit(index, now);
        return;
      }
      TracksLength(slots[..], book);
      EnterableSnap(slots[..], book, FirstSent(segment, seqStart, payload, now, delivered, EMPTY.snap),
                    SnapshotAt(clocks, now, PriorOnSend(out.raw, payload)), start);
      at, entered := FirstTransmit(segment, seqStart, payload, out.raw, now, memoryOk, start);
    }

    /** Nothing was outstanding: a new send phase begins. */
    method StartFlight(now: u64)
      requires Valid() && now != 0
      modifies this`clocks, this`log
      ensures Valid() && log == old(log).(history := old(log.history) + [FlightStart(now)])
      ensures clocks == old(clocks).(firstTx := now, deliveredAt := now)
    {
      hide Traced, ClocksTraced, Tracks;
      ClocksAdvance(clocks, delivered, log.history, FlightStart(now));
      TracedLonger(slots[..], log.traces, log.history, FlightStart(now));
      log := log.(history := log.history + [FlightStart(now)]);
      clocks := clocks.(firstTx := now, deliveredAt := now);
    }

    method Retransmit(index: nat, now: u64)
      requires Valid() && index < slots.Length && slots[index].segment != 0 && now != 0
      modifies this`log, slots
      ensures Valid() && (old(Reachable()) ==> Reachable()) && log.history == old(log.history)
      ensures index < |old(log.traces)|
      ensures log.traces == old(log.traces)[index := Trace(|log.history|, old(log.traces)[index].sends + 1)]
      ensures var snap := SnapshotAt(clocks, now, PriorOnResend(old(slots[..]), old(slots[index])));
        slots[..] == old(slots[..])[index := Resent(old(slots[index]), now, delivered, snap)]
      ensures slots[index].snap.priorInflight == Min(Outstanding(old(slots[..])), U32_MAX)
      ensures Waiting(slots[index], 0) <==> slots[index].acked >= slots[index].payload != 0
    {
      hide Tracks, Outstanding, InReach, SlotTraced, ClocksTraced, SnapshotAt;
      ghost var was := slots[..];
      TracksLength(was, book);
      var prior := OutstandingPayload();
      var slot := slots[index];
      if slot.payload > slot.acked && prior < slot.payload - slot.acked { prior := slot.payload - slot.acked; }
      slots[index] := Resent(slot, now, delivered, SnapshotAt(clocks, now, prior));
      assert slots[..] == was[index := slots[index]];
      ghost var sends := log.traces[index].sends + 1;
      SentBefore(was, log, index);
      ResendPrior(was, index);
      PriorKept(clocks, now, prior);
      SnapshotTraced(clocks, delivered, log.history, slots[index], sends, prior);
      TracedChanged(was, log.traces, log.history, index, slots[index], Trace(|log.history|, sends));
      log := log.(traces := log.traces[index := Trace(|log.history|, sends)]);
      TracksFrame(was, slots[..], book);
      ReachSame(was, slots[..], book.starts, rack, pos);
    }

    method FirstTransmit(segment: nat, seqStart: u32, payload: u16, raw: u32, now: u64, memoryOk: bool,
        ghost start: int)
      returns (ghost at: nat, ghost entered: bool)
      requires Valid() && segment != 0 && now != 0
      requires var snap := SnapshotAt(clocks, now, PriorOnSend(raw, payload));
        Enterable(slots[..], book, FirstSent(segment, seqStart, payload, now, delivered, snap), start)
      modifies this, slots
      ensures Valid() && delivered == old(delivered) && rack == old(rack) && pos == old(pos)
          && clocks == old(clocks) && log.history == old(log.history)
      ensures old(Reachable()) && EndNear(start + payload, rack, pos) ==> Reachable()
      ensures !entered ==> slots == old(slots) && slots[..] == old(slots[..]) && book == old(book) && log == old(log)
      ensures entered ==>
        var snap := SnapshotAt(clocks, now, PriorOnSend(raw, payload));
        && at < slots.Length && slots[at] == FirstSent(segment, seqStart, payload, now, delivered, snap)
        && book == Entered(old(book).(starts := book.starts), at, slots[at], start)
        && TracedAnew(old(log.traces), log, at)
        && Outstanding(slots[..]) == Outstanding(old(slots[..])) + payload
      ensures entered <==> 0 in Segments(old(slots[..])) || (memoryOk && old(slots.Length) < maxSlots)
    {
      hide Tracks, Unstaged, Snapshots, Enterable, Interval, Outstanding, InReach, Near, SlotTraced, ClocksTraced,
        SnapshotAt, EndNear;
      ghost var s := FirstSent(segment, seqStart, payload, now, delivered,
          SnapshotAt(clocks, now, PriorOnSend(raw, payload)));
      at, entered := 0, false;
      TracksLength(slots[..], book);
      var index := Find(0);
      if index == slots.Length {
        var ok := Grow(memoryOk);
        if !ok { return; }
        EnterableGrown(old(slots[..]), old(book), slots.Length - index, s, start);
        OutstandingPadded(old(slots[..]), slots.Length - index);
        assert slots[..][index] == EMPTY;
        index := Find(0);
      }
      at, entered := index, true;
      var prior := if raw > U32_MAX - payload then U32_MAX else raw + payload;
      Place(index, FirstSent(segment, seqStart, payload, now, delivered, SnapshotAt(clocks, now, prior)), prior, start);
    }

    /** A new segment takes the empty slot at `index`. */
    method Place(index: nat, s: Slot, ghost prior: u32, ghost start: int)
      requires Valid() && index < slots.Length && slots[index].segment == 0 && |book.starts| == slots.Length
      requires s.segment != 0 && s.acked == 0 && s.rackStage == 0 && s.deliveredAtSend == delivered
      requires s.txNs != 0 && !s.retransmitted && s.snap == SnapshotAt(clocks, s.txNs, prior)
      requires Enterable(slots[..], book, s, start)
      modifies this`book, this`log, slots
      ensures Valid() && slots[..] == old(slots[..])[index := s]
      ensures index < |old(log.traces)| && log.history == old(log.history)
      ensures log.traces == old(log.traces)[index := Trace(|log.history|, 1)]
      ensures |book.starts| == slots.Length && book == Entered(old(book).(starts := book.starts), index, s, start)
      ensures Outstanding(slots[..]) == Outstanding(old(slots[..])) + s.payload
      ensures old(Reachable()) && EndNear(start + s.payload, rack, pos) ==> Reachable()
    {
      hide Tracks, Unstaged, Snapshots, Enterable, Interval, Outstanding, InReach, Near, SlotTraced, ClocksTraced,
        SnapshotAt, EndNear;
      ghost var was := slots[..];
      SnapshotTraced(clocks, delivered, log.history, s, 1, prior);
      TracedChanged(was, log.traces, log.history, index, s, Trace(|log.history|, 1));
      log := log.(traces := log.traces[index := Trace(|log.history|, 1)]);
      Enter(was, book, index, s, start);
      EnterRest(was, delivered, index, s);
      if Reachable() && EndNear(start + s.payload, rack, pos) {
        ReachChanged(was, book.starts, index, s, start, rack, pos);
      }
      slots[index] := s;
      assert slots[..] == was[index := s];
      book := Entered(book, index, s, start);
      assert book.starts[index := start] == book.starts;
    }

    /** `tcp_shift_lwip_cc_mark_app_limited`, once lwIP has nothing to send and room to
        send it: everything delivered so far or outstanding lies below the marker. */
    method MarkAppLimited(idle: bool)
      requires Valid()
      modifies this`clocks, this`log
      ensures Valid() && clocks == old(clocks).(limitedUntil := clocks.limitedUntil) && log.traces == old(log.traces)
      ensures log.history == old(log.history) +
        if idle && old(clocks).limitedUntil == 0 then [Mark(clocks.limitedUntil)] else []
      ensures clocks.limitedUntil ==
        if idle && old(clocks).limitedUntil == 0 then Max(1, delivered + Min(Outstanding(slots[..]), U32_MAX))
        else old(clocks).limitedUntil
    {
      hide Tracks, Traced, ClocksTraced;
      if clocks.limitedUntil != 0 || !idle { return; }
      var tracked := OutstandingPayload();
      var marker := delivered + tracked;
      if marker == 0 { marker := 1; }
      ClocksAdvance(clocks, delivered, log.history, Mark(marker));
      TracedLonger(slots[..], log.traces, log.history, Mark(marker));
      log := log.(history := log.history + [Mark(marker)]);
      clocks := clocks.(limitedUntil := marker);
    }

    /** `tcp_shift_lwip_cc_on_segment_acked`: whatever its state, the slot is
        freed; bytes it had not seen delivered are given up, never counted. */
    method OnSegmentAcked(segment: nat, payload: u16) returns (ghost at: nat)
      requires Valid()
      modifies this, slots
      ensures Valid() && delivered == old(delivered) && rack == old(rack) && slots == old(slots)
      ensures pos == old(pos) && clocks == old(clocks) && log == old(log) && (old(Reachable()) ==> Reachable())
      ensures segment == 0 || payload == 0 || segment !in Segments(old(slots[..])) ==>
        slots[..] == old(slots[..]) && book == old(book)
      ensures segment != 0 && payload != 0 && segment in Segments(old(slots[..])) ==>
        && Occupied(old(slots[..]), at) && old(slots[..])[at].segment == segment
        && slots[..] == old(slots[..])[at := EMPTY]
        && book == Left(old(slots[..]), old(book), at)
        && (old(slots[..])[at].acked == old(slots[..])[at].payload ==> book == old(book))
    {
      hide Tracks, Left, InReach, SlotTraced, ClocksTraced;
      at := 0;
      if segment == 0 || payload == 0 { return; }
      var index := Find(segment);
      if index == slots.Length { return; }
      at := index;
      ghost var was := slots[..];
      SlotShape(was, book, index);
      Leave(was, book, index);
      TracksLength(was, book);
      if Reachable() { ReachChanged(was, book.starts, index, EMPTY, book.starts[index], rack, pos); }
      assert book.starts[index := book.starts[index]] == book.starts;
      slots[index] := EMPTY;
      assert slots[..] == was[index := EMPTY];
      TracedChanged(was, log.traces, log.history, index, EMPTY, log.traces[index]);
      assert log.traces[index := log.traces[index]] == log.traces;
      LeftCovered(was, book, index);
      book := Left(was, book, index);
    }

    /** The step both sweeps share: slot i's acknowledged prefix becomes n. */
    method Deliver(i: nat, n: u16, ghost was: seq<Slot>, ghost start: Book)
      requires i < slots.Length && slots[i].segment != 0 && slots[i].acked < n <= slots[i].payload
      requires Tracks(slots[..], book) && |was| == |start.starts| && Gains(was, start, book)
      requires |was| == slots.Length && was[i] == slots[i]
      modifies this`book, slots
      ensures slots[..] == old(slots[..])[i := old(slots[i]).(acked := n)]
      ensures Tracks(slots[..], book) && Gains(was, start, book)
      ensures |book.covered| == |old(book).covered| + (n - old(slots[i]).acked)
    {
      hide Tracks, Gains, Advanced;
      ghost var cur := slots[..];
      TracksLength(cur, book);
      Advance(cur, book, i, n);
      GainsStep(was, start, cur, book, i, n);
      book := Advanced(cur, book, i, n);
      slots[i] := slots[i].(acked := n);
      assert slots[..] == cur[i := cur[i].(acked := n)];
    }

    /** `tcp_shift_delivery_build_rate_sample`: the cumulative sweep. */
    method AckSweep(ackSeq: u32, ghost ack: int) returns (added: nat, candidate: int)
      requires Valid() && ackSeq == Wrap32(ack) && AckInReach(slots[..], book.starts, ack)
      modifies this`book, slots
      ensures Tracks(slots[..], book) && book == old(book).(covered := book.covered)
      ensures forall i :: 0 <= i < slots.Length ==> slots[i] == AfterAck(old(slots[..])[i], ackSeq)
      ensures forall b :: b in book.covered <==>
                b in old(book.covered) || Below(old(slots[..]), old(book.starts), ack, b)
      ensures |book.covered| == old(delivered) + added
      ensures Gains(old(slots[..]), old(book), book)
      ensures Newest(old(slots[..]), slots[..], Ends(old(slots[..]), old(book.starts)), slots.Length, candidate)
    {
      hide Tracks, Gains, AckInReach, Newest, AckedPayload, SentAfter, Ends;
      ghost var was, start := slots[..], book;
      TracksLength(was, start);
      ghost var ends := Ends(was, start.starts);
      SweepStart(was, start, ends);
      added, candidate := 0, -1;
      var index := 0;
      while index < slots.Length
        invariant index <= slots.Length && candidate < index
        invariant Tracks(slots[..], book) && Gains(was, start, book)
        invariant |book.covered| == |start.covered| + added
        invariant forall i :: 0 <= i < slots.Length ==>
                    slots[i] == if i < index then AfterAck(was[i], ackSeq) else was[i]
        invariant Newest(was, slots[..], ends, index, candidate)
      {
        var slot := slots[index];
        var acked := AckedPayload(slot, ackSeq);
        ghost var cur := slots[..];
        if slot.segment != 0 && acked > slot.acked {
          Deliver(index, acked, was, start);
          added := added + (acked - slot.acked);
          NewestStep(was, start, cur, slots[..], ends, index, candidate);
          if candidate == -1 ||
             SentAfter(slot.txNs, EndSeq(slot), slots[candidate].txNs, EndSeq(slots[candidate])) {
            candidate := index;
          }
        } else {
          NewestSkip(was, cur, ends, index, candidate);
        }
        index := index + 1;
      }
      GainsShape(was, start, book);
      AckReached(was, start, slots[..], book, ack);
    }

    /** `tcp_shift_delivery_build_sack_rate_sample`: the SACK sweep. */
    method SackSweep(ranges: seq<SackRange>, ghost blocks: seq<Block>) returns (added: nat, candidate: int)
      requires Valid() && Wraps(ranges, blocks) && BlocksInReach(slots[..], book.starts, blocks)
      modifies this`book, slots
      ensures Tracks(slots[..], book) && book == old(book).(covered := book.covered)
      ensures forall i :: 0 <= i < slots.Length ==> slots[i] == AfterSack(old(slots[..])[i], ranges)
      ensures forall b :: b in book.covered <==>
                b in old(book.covered) || Sacked(old(slots[..]), old(book.starts), blocks, b)
      ensures |book.covered| == old(delivered) + added
      ensures Gains(old(slots[..]), old(book), book)
      ensures Newest(old(slots[..]), slots[..], Ends(old(slots[..]), old(book.starts)), slots.Length, candidate)
    {
      hide Tracks, Gains, BlocksInReach, Wraps, Newest, InSackRange, SentAfter, Ends;
      ghost var was, start := slots[..], book;
      TracksLength(was, start);
      ghost var ends := Ends(was, start.starts);
      SweepStart(was, start, ends);
      added, candidate := 0, -1;
      var index := 0;
      while index < slots.Length
        invariant index <= slots.Length && candidate < index
        invariant Tracks(slots[..], book) && Gains(was, start, book)
        invariant |book.covered| == |start.covered| + added
        invariant forall i :: 0 <= i < slots.Length ==>
                    slots[i] == if i < index then AfterSack(was[i], ranges) else was[i]
        invariant Newest(was, slots[..], ends, index, candidate)
      {
        var slot := slots[index];
        var covered := false;
        if slot.segment != 0 && slot.acked < slot.payload {
          var m := 0;
          while m < |ranges| && !covered
            invariant m <= |ranges|
            invariant covered <==> exists j :: 0 <= j < m && InSackRange(slot, ranges[j])
          {
            covered := InSackRange(slot, ranges[m]);
            m := m + 1;
          }
        }
        ghost var cur := slots[..];
        if covered {
          Deliver(index, slot.payload, was, start);
          added := added + (slot.payload - slot.acked);
          NewestStep(was, start, cur, slots[..], ends, index, candidate);
          if candidate == -1 ||
             SentAfter(slot.txNs, EndSeq(slot), slots[candidate].txNs, EndSeq(slots[candidate])) {
            candidate := index;
          }
        } else {
          NewestSkip(was, cur, ends, index, candidate);
        }
        index := index + 1;
      }
      GainsShape(was, start, book);
      SackReached(was, start, slots[..], book, ranges, blocks);
    }

    /** What follows either sweep: the RACK passes, unless deferred, and the rate
        sample taken from the most recently sent slot that was touched. */
    method Finish(added: nat, candidate: int, processRack: bool, now: u64, ghost was: seq<Slot>)
      returns (sample: RateSample, ghost timeOrder: seq<nat>, ghost endOrder: seq<nat>)
      requires now != 0 && Tracks(slots[..], book) && delivered + added == |book.covered|
      requires |was| == slots.Length && Unstaged(was) && Snapshots(was, delivered)
      requires MarkersAt(rack, pos) && (clocks.limitedUntil != 0 ==> delivered <= clocks.limitedUntil)
      requires Traced(was, log.traces, log.history) && ClocksTraced(clocks, delivered, log.history)
      requires forall i :: 0 <= i < slots.Length ==> SameSend(was[i], slots[i])
      requires -1 <= candidate < slots.Length && (added > 0 ==> candidate >= 0 && was[candidate].segment != 0)
      modifies this`delivered, this`rack, this`pos, this`clocks, this`log, slots
      ensures Valid() && delivered == old(delivered) + added
      ensures slots[..] == Staged(old(slots[..]), timeOrder, 2)
      ensures var ends := Ends(old(slots[..]), book.starts);
        if processRack
        then
          && RackPassed(old(slots[..]), ends, old(rack), rack, timeOrder, endOrder, now)
          && RackJudged(old(slots[..]), book.starts, old(rack), rack, old(pos), pos, timeOrder, now)
        else rack == old(rack) && pos == old(pos) && timeOrder == []
      ensures ClocksMoved(was, candidate, old(clocks), clocks, old(log.history), log.history, old(delivered), delivered,
        now) && log.traces == old(log.traces)
      ensures InReach(old(slots[..]), book.starts, old(rack), old(pos)) ==> Reachable()
      ensures if added == 0 then sample == NoSample
              else Measured(was, old(log), candidate, sample, delivered, now)
    {
      hide InReach, Tracks, RackPassed, RackJudged, Staged, Unstaged, SampleOf, ClocksMoved, Traced, ClocksTraced,
        Measured;
      ghost var cur := slots[..];
      timeOrder, endOrder := [], [];
      TracksLength(cur, book);
      if processRack {
        timeOrder, endOrder := RunRack(now, was);
      }
      assert slots[..] == Staged(cur, timeOrder, 2) by { if !processRack { StagedNone(cur); } }
      StagedRest(was, cur, timeOrder, delivered);
      TracksFrame(cur, slots[..], book);
      ReachStaged(cur, book.starts, timeOrder, rack, pos);
      if processRack { JudgedReach(cur, book.starts, old(rack), rack, old(pos), pos, timeOrder, now); }
      sample := TakeSample(added, candidate, now, was, cur, timeOrder);
      TracedSame(was, slots[..], log.traces, log.history);
    }

    /** Both RACK passes, with the forward-most sequence followed beside them. */
    method RunRack(now: u64, ghost was: seq<Slot>) returns (ghost timeOrder: seq<nat>, ghost endOrder: seq<nat>)
      requires now != 0 && Tracks(slots[..], book) && |book.starts| == slots.Length == |was| && Unstaged(was)
      requires MarkersAt(rack, pos) && forall i :: 0 <= i < slots.Length ==> SameSend(was[i], slots[i])
      modifies this`rack, this`pos, slots
      ensures slots[..] == Staged(old(slots[..]), timeOrder, 2) && MarkersAt(rack, pos)
      ensures var ends := Ends(old(slots[..]), book.starts);
        && RackPassed(old(slots[..]), ends, old(rack), rack, timeOrder, endOrder, now)
        && RackJudged(old(slots[..]), book.starts, old(rack), rack, old(pos), pos, timeOrder, now)
    {
      hide Tracks, EndsMatch, InOrder, VisitsAll, NoteAll, DetectAll, Staged, Unstaged, FackInReach, Foremost,
        DeliveredLate, Ends, Wrap32, SegmentJudged, MinimumJudged;
      ghost var cur := slots[..];
      ghost var ends, before, from := Ends(cur, book.starts), rack, pos;
      TracksEnds(cur, book);
      UnstagedWaits(was, cur);
      rack, timeOrder, endOrder := ProcessDelivered(slots, ends, rack, now);
      ghost var fack := PassReordering(before, cur, ends, timeOrder, endOrder, now, pos.fack);
      ghost var segment := PassSegment(before, cur, ends, timeOrder, endOrder, now, pos.segment);
      pos := Positions(fack, segment);
      if InReach(cur, book.starts, before, from) {
        if fack == from.fack { assert rack.fack == before.fack; }
        ReachFollows(cur, book.starts, before, rack, from, pos);
      }
    }

    /** `tcp_shift_delivery_finalize_rate_sample`. */
    method TakeSample(added: nat, candidate: int, now: u64, ghost was: seq<Slot>, ghost cur: seq<Slot>,
        ghost order: seq<nat>)
      returns (sample: RateSample)
      requires |was| == |cur| == slots.Length && slots[..] == Staged(cur, order, 2)
      requires Snapshots(was, delivered) && forall i :: 0 <= i < |was| ==> SameSend(was[i], cur[i])
      requires now != 0 && Traced(was, log.traces, log.history) && ClocksTraced(clocks, delivered, log.history)
      requires -1 <= candidate < slots.Length && (added > 0 ==> candidate >= 0 && was[candidate].segment != 0)
      requires clocks.limitedUntil != 0 ==> delivered <= clocks.limitedUntil
      modifies this`delivered, this`clocks, this`log
      ensures Traced(was, log.traces, log.history) && ClocksTraced(clocks, delivered, log.history)
      ensures delivered == old(delivered) + added && (clocks.limitedUntil != 0 ==> delivered <= clocks.limitedUntil)
      ensures ClocksMoved(was, candidate, old(clocks), clocks, old(log.history), log.history, old(delivered), delivered,
        now) && log.traces == old(log.traces)
      ensures if added == 0 then sample == NoSample
              else Measured(was, old(log), candidate, sample, delivered, now)
    {
      hide Staged, SampleOf, ClocksTraced, SlotTraced, Measures;
      if added == 0 { return NoSample; }
      ghost var traced, moment := was[candidate], Delivery(now, was[candidate].txNs, delivered + added);
      SentAt(was, log, candidate);
      SampleMeasures(traced, log.traces[candidate], log.history, delivered + added, now);
      ClocksAdvance(clocks, delivered, log.history, moment);
      TracedLonger(was, log.traces, log.history, moment);
      log := log.(history := log.history + [moment]);
      delivered := delivered + added;
      StagedSend(was, cur, order, candidate);
      var slot := slots[candidate];
      assert slot == slots[..][candidate];
      clocks := clocks.(deliveredAt := now);
      if clocks.limitedUntil != 0 && delivered > clocks.limitedUntil { clocks := clocks.(limitedUntil := 0); }
      clocks := clocks.(firstTx := slot.txNs);
      sample := SampleOf(slot, delivered, now);
      SampleReads(slot, was[candidate], delivered, now);
    }

    /** The cumulative ACK path: bytes below the ACK become delivered, each counted once. */
    method OnCumulativeAck(ackSeq: u32, now: u64, ghost ack: int)
      returns (newly: u32, sample: RateSample, ghost timeOrder: seq<nat>, ghost endOrder: seq<nat>,
          ghost candidate: int)
      requires Valid() && ackSeq == Wrap32(ack) && AckInReach(slots[..], book.starts, ack)
      modifies this, slots
      ensures Valid() && slots == old(slots) && book == old(book).(covered := book.covered)
      ensures now == 0 ==> slots[..] == old(slots[..]) && book == old(book) && newly == 0
      ensures now == 0 ==> rack == old(rack) && pos == old(pos) && clocks == old(clocks) && log == old(log)
      ensures old(Reachable()) ==> Reachable()
      ensures now != 0 ==>
        var swept := SweptByAck(old(slots[..]), ackSeq);
        && (forall b :: b in book.covered <==>
             b in old(book.covered) || Below(old(slots[..]), old(book.starts), ack, b))
        && slots[..] == Staged(swept, timeOrder, 2)
        && RackPassed(swept, Ends(swept, book.starts), old(rack), rack, timeOrder, endOrder, now)
        && RackJudged(swept, book.starts, old(rack), rack, old(pos), pos, timeOrder, now)
        && Sampled(old(slots[..]), swept, Ends(swept, book.starts), old(log), candidate, sample,
                   old(delivered), delivered, now)
        && ClocksMoved(old(slots[..]), candidate, old(clocks), clocks, old(log.history), log.history,
                       old(delivered), delivered, now)
        && log.traces == old(log.traces)
      ensures newly == Min(delivered - old(delivered), U32_MAX)
    {
      hide Tracks, AckInReach, Newest, AfterAck, Staged, Below, RackJudged, Delivered, SampleOf, InReach;
      timeOrder, endOrder, candidate := [], [], -1;
      if now == 0 { return 0, NoSample, [], [], -1; }
      ghost var was, start, before := slots[..], book, delivered;
      TracksLength(was, start);
      var added, chosen := AckSweep(ackSeq, ack);
      candidate := chosen;
      ghost var swept := SweptByAck(was, ackSeq);
      assert slots[..] == swept;
      AckKeepsSend(was, ackSeq);
      ReachSame(was, swept, start.starts, rack, pos);
      SweepTouched(was, swept, start, book, candidate, added);
      sample, timeOrder, endOrder := Finish(added, chosen, true, now, was);
      newly := if added > U32_MAX then U32_MAX else added;
    }

    /** The SACK path: slots that a block covers completely become delivered. */
    method OnSack(ranges: seq<SackRange>, processRack: bool, now: u64, ghost blocks: seq<Block>)
      returns (newly: u32, sample: RateSample, ghost timeOrder: seq<nat>, ghost endOrder: seq<nat>,
          ghost candidate: int)
      requires Valid() && Wraps(ranges, blocks) && BlocksInReach(slots[..], book.starts, blocks)
      modifies this, slots
      ensures Valid() && slots == old(slots) && book == old(book).(covered := book.covered)
      ensures now == 0 ==> slots[..] == old(slots[..]) && book == old(book) && newly == 0
      ensures now == 0 ==> rack == old(rack) && pos == old(pos) && clocks == old(clocks) && log == old(log)
      ensures old(Reachable()) ==> Reachable()
      ensures now != 0 ==>
        var swept := SweptBySack(old(slots[..]), ranges);
        && (forall b :: b in book.covered <==>
             b in old(book.covered) || Sacked(old(slots[..]), old(book.starts), blocks, b))
        && slots[..] == Staged(swept, timeOrder, 2)
        && (if processRack
            then
              && RackPassed(swept, Ends(swept, book.starts), old(rack), rack, timeOrder, endOrder, now)
              && RackJudged(swept, book.starts, old(rack), rack, old(pos), pos, timeOrder, now)
            else rack == old(rack) && pos == old(pos) && timeOrder == [])
        && Sampled(old(slots[..]), swept, Ends(swept, book.starts), old(log), candidate, sample,
                   old(delivered), delivered, now)
        && ClocksMoved(old(slots[..]), candidate, old(clocks), clocks, old(log.history), log.history,
                       old(delivered), delivered, now)
        && log.traces == old(log.traces)
      ensures newly == Min(delivered - old(delivered), U32_MAX)
    {
      hide Tracks, BlocksInReach, Wraps, Newest, AfterSack, Staged, Sacked, RackJudged, Delivered, SampleOf,
        InReach;
      timeOrder, endOrder, candidate := [], [], -1;
      if now == 0 { return 0, NoSample, [], [], -1; }
      ghost var was, start, before := slots[..], book, delivered;
      TracksLength(was, start);
      var added, chosen := SackSweep(ranges, blocks);
      candidate := chosen;
      ghost var swept := SweptBySack(was, ranges);
      assert slots[..] == swept;
      SackKeepsSend(was, ranges);
      ReachSame(was, swept, start.starts, rack, pos);
      SweepTouched(was, swept, start, book, candidate, added);
      sample, timeOrder, endOrder := Finish(added, chosen, processRack, now, was);
      newly := if added > U32_MAX then U32_MAX else added;
    }

    /** One received ACK: SACK blocks are reported first, the cumulative ACK after.
        When the ACK advances SND.UNA the RACK passes are deferred, so that a
        single pass orders every segment either of them delivered. */
    method ReceiveAck(ackSeq: u32, lastAck: u32, sndNxt: u32, ranges: seq<SackRange>, now: u64,
                      ghost ack: int, ghost blocks: seq<Block>)
      returns (sackSample: RateSample, ackSample: RateSample, ghost timeOrder: seq<nat>, ghost endOrder: seq<nat>,
               ghost mid: Midway)
      requires Valid() && now != 0 && ackSeq == Wrap32(ack) && AckInReach(slots[..], book.starts, ack)
      requires Wraps(ranges, blocks) && BlocksInReach(slots[..], book.starts, blocks)
      modifies this, slots
      ensures Valid() && slots == old(slots) && book == old(book).(covered := book.covered)
      ensures old(Reachable()) ==> Reachable()
      ensures var advances := Advances(ackSeq, lastAck, sndNxt);
        var sacked := SweptBySack(old(slots[..]), ranges);
        var swept := if advances then SweptByAck(sacked, ackSeq) else sacked;
        && (forall b :: b in book.covered <==>
              || b in old(book.covered) || Sacked(old(slots[..]), old(book.starts), blocks, b)
              || (advances && Below(old(slots[..]), old(book.starts), ack, b)))
        && slots[..] == Staged(swept, timeOrder, 2)
        && (advances || ranges != [] ==>
              && RackPassed(swept, Ends(swept, book.starts), old(rack), rack, timeOrder, endOrder, now)
              && RackJudged(swept, book.starts, old(rack), rack, old(pos), pos, timeOrder, now))
        && log.traces == old(log.traces)
        && (if ranges == []
            then sackSample == NoSample && mid == Midway(old(delivered), old(clocks), old(log.history), -1, mid.ackFrom)
            else
              && Sampled(old(slots[..]), sacked, Ends(sacked, book.starts), old(log), mid.sackFrom, sackSample,
                         old(delivered), mid.delivered, now)
              && ClocksMoved(old(slots[..]), mid.sackFrom, old(clocks), mid.clocks, old(log.history), mid.history,
                             old(delivered), mid.delivered, now))
        && (if !advances
            then ackSample == NoSample && mid == Midway(delivered, clocks, log.history, mid.sackFrom, mid.ackFrom)
            else
              && Sampled(sacked, swept, Ends(swept, book.starts), Log(mid.history, log.traces), mid.ackFrom, ackSample,
                         mid.delivered, delivered, now)
              && ClocksMoved(sacked, mid.ackFrom, mid.clocks, clocks, mid.history, log.history,
                             mid.delivered, delivered, now))
    {
      hide Tracks, AckInReach, BlocksInReach, Wraps, Staged, Below, Sacked, RackPassed, Sampled, AfterAck, AfterSack,
        RackJudged, ClocksMoved, InReach;
      ghost var was, start := slots[..], book;
      TracksLength(was, start);
      sackSample, ackSample, timeOrder, endOrder := NoSample, NoSample, [], [];
      mid := Midway(delivered, clocks, log.history, -1, -1);
      var defer := Advances(ackSeq, lastAck, sndNxt);
      ghost var sacked := SweptBySack(was, ranges);
      SackKeepsSend(was, ranges);
      StagedNone(sacked);
      HoldsSame(was, sacked, start.starts, ack);
      if ranges != [] {
        var newly, sample, t, e, c := OnSack(ranges, !defer, now, blocks);
        sackSample, timeOrder, endOrder, mid := sample, t, e, Midway(delivered, clocks, log.history, c, -1);
      } else {
        NothingSacked(was, start.starts, ranges, blocks);
      }
      if defer {
        assert slots[..] == sacked;
        var newly, sample, t, e, c := OnCumulativeAck(ackSeq, now, ack);
        ackSample, timeOrder, endOrder, mid := sample, t, e, mid.(ackFrom := c);
      }
    }

    /** `tcp_shift_delivery_outstanding_payload`. */
    method OutstandingPayload() returns (total: u32)
      ensures total == Min(Outstanding(slots[..]), U32_MAX)
    {
      var sum, index := 0, 0;
      while index < slots.Length
        invariant index <= slots.Length && sum == Outstanding(slots[..index])
      {
        assert slots[..index + 1][..index] == slots[..index];
        if slots[index].segment != 0 && slots[index].payload > slots[index].acked {
          sum := sum + (slots[index].payload - slots[index].acked);
        }
        index := index + 1;
      }
      assert slots[..index] == slots[..];
      total := if sum > U32_MAX then U32_MAX else sum;
    }
  }
}
