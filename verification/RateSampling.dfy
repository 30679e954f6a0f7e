/** Delivery-rate samples: the snapshot taken when a segment is sent, the clocks it
    is taken from, and the sample an ACK makes of it. */
module RateSampling {
  import opened Words
  import opened RackOrder

  /** The adapter's send-phase start, last delivery time and application-limited
      marker; zero means unset. */
  datatype Clocks = Clocks(firstTx: u64, deliveredAt: u64, limitedUntil: nat)

  datatype Flags = Flags(valid: bool, appLimited: bool, retransmitted: bool, rttValid: bool)
  datatype RateSample = NoSample | RateSample(
    prior: nat, total: nat, delta: u32, priorInflight: u32, sendInterval: u64, ackInterval: u64,
    rtt: u64, rate: u64, flags: Flags)

  /** A transmission with nothing outstanding starts a new send phase. */
  function FlightStarted(c: Clocks, now: u64, start: bool): Clocks
  { if start then c.(firstTx := now, deliveredAt := now) else c }

  function SnapshotAt(c: Clocks, now: u64, priorInflight: u32): Snapshot
  {
    Snapshot(if c.firstTx != 0 then c.firstTx else now, if c.deliveredAt != 0 then c.deliveredAt else now,
             priorInflight, c.limitedUntil != 0)
  }

  /** The clocks once `delivered` bytes have been delivered, the newest of them by slot s. */
  function Delivered(c: Clocks, s: Slot, delivered: nat, now: u64): Clocks
  {
    Clocks(s.txNs, now, if c.limitedUntil != 0 && delivered > c.limitedUntil then 0 else c.limitedUntil)
  }

  function Gap(from: u64, to: u64): u64 { if to >= from then to - from else 0 }

  /** `tcp_shift_rate_bytes_per_second`. */
  function BytesPerSecond(delta: u32, interval: u64): u64
  {
    if delta == 0 || interval == 0 then 0 else
    DivFacts(delta * NS_PER_SEC, interval);
    delta * NS_PER_SEC / interval
  }

  /** `tcp_shift_delivery_finalize_rate_sample` for a candidate slot. */
  function SampleOf(s: Slot, delivered: nat, now: u64): RateSample
    requires s.deliveredAtSend <= delivered
  {
    var delta := Min(delivered - s.deliveredAtSend, U32_MAX);
    var send, ack := Gap(s.snap.firstTx, s.txNs), Gap(s.snap.deliveredAt, now);
    var rate := BytesPerSecond(delta, Max(send, ack));
    var rttValid := !s.retransmitted && s.txNs != 0 && now >= s.txNs;
    var rtt := if rttValid then now - s.txNs else 0;
    RateSample(s.deliveredAtSend, delivered, delta, s.snap.priorInflight, send, ack, rtt, rate,
               Flags(delta != 0 && Max(send, ack) != 0 && rate != 0, s.snap.appLimited, s.retransmitted, rttValid))
  }

  /** A sample is valid if and only if it carries a rate. The rate is the floor of
      the delivered bytes over the longer interval, so neither burst sending nor ACK
      compression alone can raise it; and no RTT is taken from a retransmission. */
  lemma SampleLaw(s: Slot, delivered: nat, now: u64)
    requires s.deliveredAtSend <= delivered
    ensures var x := SampleOf(s, delivered, now);
      && (x.flags.valid <==> x.rate != 0)
      && x.rate * x.sendInterval <= x.delta * NS_PER_SEC && x.rate * x.ackInterval <= x.delta * NS_PER_SEC
      && (Max(x.sendInterval, x.ackInterval) != 0 ==>
           x.delta * NS_PER_SEC < (x.rate + 1) * Max(x.sendInterval, x.ackInterval))
      && (x.flags.rttValid ==> !x.flags.retransmitted && x.rtt == now - s.txNs)
      && (x.delta < U32_MAX ==> x.prior + x.delta == x.total)
  {
    hide BytesPerSecond, Gap;
    var x := SampleOf(s, delivered, now);
    var longer := Max(x.sendInterval, x.ackInterval);
    RateBounds(x.delta, longer);
    MulMono(x.sendInterval, longer, x.rate);
    MulMono(x.ackInterval, longer, x.rate);
    assert x.sendInterval * x.rate == x.rate * x.sendInterval && x.ackInterval * x.rate == x.rate * x.ackInterval;
    assert longer * x.rate == x.rate * longer;
  }

  lemma RateBounds(delta: u32, interval: u64)
    ensures var rate := BytesPerSecond(delta, interval);
      && rate * interval <= delta * NS_PER_SEC
      && (interval != 0 ==> delta * NS_PER_SEC < (rate + 1) * interval)
      && (rate != 0 ==> delta != 0 && interval != 0)
  {
    var x := delta * NS_PER_SEC;
    if delta != 0 && interval != 0 {
      DivFacts(x, interval);
      assert x == (x / interval) * interval + x % interval;
      assert (x / interval + 1) * interval == (x / interval) * interval + interval;
    }
  }

  // ---------------------------------------------------------------- what the clocks stand for

  /** What the adapter's clocks remember: a transmission into an empty flight, an ACK
      that delivered bytes (when, the send time of the slot it sampled, and the total
      afterwards), and the application running out of data. */
  datatype Moment = FlightStart(time: u64) | Delivery(time: u64, sentAt: u64, total: nat) | Mark(until: nat)

  predicate MomentOk(x: Moment)
  {
    match x
    case FlightStart(time) => time != 0
    case Delivery(time, sentAt, _) => time != 0 && sentAt != 0
    case Mark(until) => until != 0
  }

  predicate HistoryOk(h: seq<Moment>) { forall i :: 0 <= i < |h| ==> MomentOk(h[i]) }

  /** When the current send phase began: the send time of the slot the last delivering
      ACK sampled, or the start of the flight. */
  function SendPhase(h: seq<Moment>, unset: u64): u64
  {
    if h == [] then unset else
    match h[|h| - 1]
    case FlightStart(time) => time
    case Delivery(_, sentAt, _) => sentAt
    case Mark(_) => SendPhase(h[..|h| - 1], unset)
  }

  /** When bytes were last delivered, or the flight started. */
  function LastDelivery(h: seq<Moment>, unset: u64): u64
  {
    if h == [] then unset else
    match h[|h| - 1]
    case FlightStart(time) => time
    case Delivery(time, _, _) => time
    case Mark(_) => LastDelivery(h[..|h| - 1], unset)
  }

  /** Bytes delivered so far. */
  function DeliveredBy(h: seq<Moment>): nat
  {
    if h == [] then 0 else
    match h[|h| - 1]
    case Delivery(_, _, total) => total
    case _ => DeliveredBy(h[..|h| - 1])
  }

  /** Some mark has not been passed by a later delivery. */
  ghost predicate Limited(h: seq<Moment>) { exists k :: MarkStands(h, k) }

  ghost predicate MarkStands(h: seq<Moment>, k: int)
  { 0 <= k < |h| && h[k].Mark? && forall j :: k < j < |h| && h[j].Delivery? ==> h[j].total <= h[k].until }

  /** The marker the adapter holds: the standing mark, or zero. */
  function Marker(h: seq<Moment>): nat
  {
    if h == [] then 0 else
    var before := Marker(h[..|h| - 1]);
    match h[|h| - 1]
    case FlightStart(_) => before
    case Delivery(_, _, total) => if before != 0 && total > before then 0 else before
    case Mark(until) => until
  }

  /** A mark is only set when none stands. */
  predicate MarksApart(h: seq<Moment>)
  { forall i :: 0 <= i < |h| && h[i].Mark? ==> Marker(h[..i]) == 0 }

  lemma {:induction false} MarkerStands(h: seq<Moment>)
    requires HistoryOk(h) && MarksApart(h)
    ensures Marker(h) != 0 <==> Limited(h)
    ensures forall k :: MarkStands(h, k) ==> h[k].until == Marker(h)
  {
    if h != [] {
      var n := |h| - 1;
      var before, x := h[..n], h[n];
      assert forall i :: 0 <= i <= n ==> before[..i] == h[..i];
      MarkerStands(before);
      forall k | MarkStands(h, k) ensures h[k].until == Marker(h) {
        if k < n { assert MarkStands(before, k) && before[k] == h[k]; }
      }
      if Marker(h) != 0 {
        if x.Mark? {
          assert MarkStands(h, n);
        } else {
          var k :| MarkStands(before, k);
          assert before[k] == h[k];
          assert MarkStands(h, k);
        }
      }
    }
  }

  // ------------------------------------------------------------------- traces of transmissions

  /** A tracked segment's latest transmission: how much had happened before it, and how
      often the segment has been sent. */
  datatype Trace = Trace(at: nat, sends: nat)

  /** What a slot remembers is what was true when it was last sent. */
  ghost predicate SlotTraced(s: Slot, tr: Trace, h: seq<Moment>)
  {
    && tr.at <= |h| && tr.sends >= 1 && s.txNs != 0
    && s.snap.firstTx == SendPhase(h[..tr.at], s.txNs) && s.snap.deliveredAt == LastDelivery(h[..tr.at], s.txNs)
    && (s.snap.appLimited <==> Limited(h[..tr.at])) && s.deliveredAtSend == DeliveredBy(h[..tr.at])
    && (s.retransmitted <==> tr.sends > 1)
  }

  ghost predicate ClocksTraced(c: Clocks, delivered: nat, h: seq<Moment>)
  {
    && HistoryOk(h) && MarksApart(h)
    && c == Clocks(SendPhase(h, 0), LastDelivery(h, 0), Marker(h)) && delivered == DeliveredBy(h)
  }

  ghost predicate Traced(slots: seq<Slot>, traces: seq<Trace>, h: seq<Moment>)
  {
    && |traces| == |slots|
    && forall i :: 0 <= i < |slots| && slots[i].segment != 0 ==> SlotTraced(slots[i], traces[i], h)
  }

  /** What an interval, and the sample made of it, measures. */
  predicate Spans(interval: u64, from: u64, to: u64) { interval == Max(0, to - from) }

  /** A sample measured over the ledger's own events: since the last delivery before
      the segment's latest transmission, and since the send phase it belonged to. */
  ghost predicate Measures(x: RateSample, s: Slot, tr: Trace, h: seq<Moment>, delivered: nat, now: u64)
  {
    && x.RateSample? && tr.at <= |h|
    && Spans(x.ackInterval, LastDelivery(h[..tr.at], s.txNs), now)
    && Spans(x.sendInterval, SendPhase(h[..tr.at], s.txNs), s.txNs)
    && x.prior == DeliveredBy(h[..tr.at]) && x.total == delivered && x.delta == Min(x.total - x.prior, U32_MAX)
    && x.priorInflight == s.snap.priorInflight
    && (x.flags.appLimited <==> Limited(h[..tr.at])) && (x.flags.retransmitted <==> tr.sends > 1)
    && (x.flags.rttValid <==> tr.sends == 1 && s.txNs <= now) && (x.flags.rttValid ==> Spans(x.rtt, s.txNs, now))
  }

  lemma SampleMeasures(s: Slot, tr: Trace, h: seq<Moment>, delivered: nat, now: u64)
    requires SlotTraced(s, tr, h) && s.deliveredAtSend <= delivered
    ensures Measures(SampleOf(s, delivered, now), s, tr, h, delivered, now)
  {
    hide SendPhase, LastDelivery, DeliveredBy, Limited, BytesPerSecond;
  }

  // -------------------------------------------------------------------------- keeping traces

  lemma {:induction false} UnsetClocks(h: seq<Moment>, x: u64)
    requires HistoryOk(h)
    ensures SendPhase(h, x) == (if SendPhase(h, 0) == 0 then x else SendPhase(h, 0))
    ensures LastDelivery(h, x) == (if LastDelivery(h, 0) == 0 then x else LastDelivery(h, 0))
  {
    if h != [] { UnsetClocks(h[..|h| - 1], x); }
  }

  /** The snapshot of a transmission is traced by the whole history. */
  lemma SnapshotTraced(c: Clocks, delivered: nat, h: seq<Moment>, s: Slot, sends: nat, prior: u32)
    requires ClocksTraced(c, delivered, h) && s.txNs != 0 && s.deliveredAtSend == delivered
    requires s.snap == SnapshotAt(c, s.txNs, prior) && sends >= 1 && (s.retransmitted <==> sends > 1)
    ensures SlotTraced(s, Trace(|h|, sends), h)
  {
    hide SendPhase, LastDelivery, DeliveredBy, Limited, Marker;
    assert h[..|h|] == h;
    UnsetClocks(h, s.txNs);
    MarkerStands(h);
  }

  lemma TracedLonger(slots: seq<Slot>, traces: seq<Trace>, h: seq<Moment>, x: Moment)
    requires Traced(slots, traces, h)
    ensures Traced(slots, traces, h + [x])
  {
    hide SendPhase, LastDelivery, DeliveredBy, Limited;
    forall i | 0 <= i < |slots| && slots[i].segment != 0 ensures SlotTraced(slots[i], traces[i], h + [x]) {
      assert SlotTraced(slots[i], traces[i], h);
      assert (h + [x])[..traces[i].at] == h[..traces[i].at];
    }
  }

  /** Nothing in a trace depends on what has been acknowledged or visited. */
  lemma TracedSame(slots: seq<Slot>, slots': seq<Slot>, traces: seq<Trace>, h: seq<Moment>)
    requires Traced(slots, traces, h) && |slots'| == |slots|
    requires forall i :: 0 <= i < |slots| ==>
      slots'[i].(acked := 0, rackStage := 0) == slots[i].(acked := 0, rackStage := 0)
    ensures Traced(slots', traces, h)
  {
    hide SendPhase, LastDelivery, DeliveredBy, Limited;
    forall i | 0 <= i < |slots'| && slots'[i].segment != 0 ensures SlotTraced(slots'[i], traces[i], h) {
      assert slots'[i].(acked := 0, rackStage := 0) == slots[i].(acked := 0, rackStage := 0);
      assert SlotTraced(slots[i], traces[i], h);
    }
  }

  lemma TracedChanged(slots: seq<Slot>, traces: seq<Trace>, h: seq<Moment>, i: nat, s: Slot, tr: Trace)
    requires Traced(slots, traces, h) && i < |slots| && (s.segment != 0 ==> SlotTraced(s, tr, h))
    ensures Traced(slots[i := s], traces[i := tr], h)
  {
    hide SlotTraced;
  }

  lemma TracedGrown(slots: seq<Slot>, traces: seq<Trace>, h: seq<Moment>, more: nat)
    requires Traced(slots, traces, h)
    ensures Traced(slots + seq(more, _ => EMPTY), traces + seq(more, _ => Trace(0, 0)), h)
  {
    hide SlotTraced;
    var larger := slots + seq(more, _ => EMPTY);
    assert forall i :: |slots| <= i < |larger| ==> larger[i] == EMPTY;
  }

  /** Each way the clocks move is one more moment of the history. */
  lemma ClocksAdvance(c: Clocks, delivered: nat, h: seq<Moment>, x: Moment)
    requires ClocksTraced(c, delivered, h) && MomentOk(x) && (x.Mark? ==> c.limitedUntil == 0)
    ensures match x
      case FlightStart(time) => ClocksTraced(FlightStarted(c, time, true), delivered, h + [x])
      case Delivery(time, sentAt, total) =>
        forall s: Slot :: s.txNs == sentAt ==> ClocksTraced(Delivered(c, s, total, time), total, h + [x])
      case Mark(until) => ClocksTraced(c.(limitedUntil := until), delivered, h + [x])
  {
    var h' := h + [x];
    assert h'[..|h|] == h;
    assert forall i :: 0 <= i < |h| ==> h'[..i] == h[..i] && h'[i] == h[i];
  }
}
