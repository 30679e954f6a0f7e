/** What CUBIC keeps over whole runs of ACKs, losses, ECN marks and timeouts at a
    fixed MSS and window limit. */
module CubicRuns {
  import opened Words
  import opened CubicMath
  import opened CubicModel

  function T(mss: u32, limit: u32): Transport { Transport(mss, 0, limit) }
  function Floor(m: Model, mss: u32, limit: u32): u32 { EffectiveMin(m.minCwnd, T(mss, limit)) }
  function FloorQ(m: Model, mss: u32, limit: u32): u64 { Q16(Floor(m, mss, limit), mss) }
  function TopQ(mss: u32, limit: u32): u64 { Q16(limit, mss) }
  function Bytes(q: u64, mss: u32, limit: u32): u32 { BytesOf(q, mss, limit) }

  predicate FixedTransport(mss: u32, limit: u32) { 0 < mss <= Q_ONE && mss <= limit }

  /** Everything but the bounds on cwnd itself, which publication restores. */
  predicate Loose(m: Model, mss: u32, limit: u32)
  {
    && FixedTransport(mss, limit) && m.mss == mss
    && m.ssthresh <= TopQ(mss, limit) && m.wMax <= TopQ(mss, limit) && m.wEst <= TopQ(mss, limit)
    && Cube(m.k) <= U64_MAX
    && (m.epochActive ==> m.cwnd >= m.ssthresh)
  }

  predicate WindowOk(m: Model, mss: u32, limit: u32)
  {
    Loose(m, mss, limit) && FloorQ(m, mss, limit) <= m.cwnd <= TopQ(mss, limit)
  }

  /** The window the transport sees. */
  function Visible(m: Model, mss: u32, limit: u32): u32 { Max(Bytes(m.cwnd, mss, limit), Floor(m, mss, limit)) }

  lemma FloorFacts(m: Model, mss: u32, limit: u32)
    requires FixedTransport(mss, limit) || Loose(m, mss, limit)
    ensures mss <= Floor(m, mss, limit) <= limit
    ensures Q_ONE <= FloorQ(m, mss, limit) <= TopQ(mss, limit) <= Q16_BOUND
    ensures Bytes(FloorQ(m, mss, limit), mss, limit) <= Floor(m, mss, limit)
  {
    hide Q16, BytesOf;
    var floor := Floor(m, mss, limit);
    Q16AtLeastOne(floor, mss);
    Q16Mono(floor, limit, mss);
    RoundTrip(floor, mss, limit);
  }

  lemma FloorIsMin(m: Model, t: Transport)
    ensures Floor(m, t.mss, t.limit) == EffectiveMin(m.minCwnd, t)
  {
  }

  /** At any transport publication stores the normalised window as it is, and moves
      the threshold only up to the window floor. */
  lemma PublishedStored(m: Model, t: Transport)
    requires t.mss > 0
    ensures var n, p := Normalized(m, t), Published(m, t);
      && p.cwnd == n.cwnd >= MinQ(m.minCwnd, t)
      && (p.ssthresh == n.ssthresh || p.ssthresh == MinQ(m.minCwnd, t))
  {
    hide Q16, BytesOf;
    var minimum := EffectiveMin(m.minCwnd, t);
    Q16Mono(minimum, t.limit, t.mss);
    var q := Normalized(m, t).cwnd;
    if q > Q16(minimum, t.mss) { BytesAbove(q, minimum, t.mss, t.limit); }
  }

  /** Publication restores the window bounds and publishes the visible window,
      which always lies between the effective minimum and the limit. */
  lemma PublishedOk(m: Model, t: Transport)
    requires Loose(m, t.mss, t.limit)
    ensures WindowOk(Published(m, t), t.mss, t.limit)
    ensures PolicyOf(m, t).cwnd == Visible(Published(m, t), t.mss, t.limit)
    ensures Floor(m, t.mss, t.limit) <= PolicyOf(m, t).cwnd <= t.limit
    ensures PolicyOf(m, t).cwnd == Visible(Normalized(m, t), t.mss, t.limit)
  {
    hide Q16, BytesOf, EffectiveMin, Floor, Loose;
    FloorFacts(m, t.mss, t.limit);
    FloorIsMin(m, t);
    FloorIsMin(Published(m, t), t);
    FloorIsMin(Normalized(m, t), t);
    PublishedBounds(m, t);
  }

  lemma PublishedBounds(m: Model, t: Transport)
    requires Loose(m, t.mss, t.limit)
    ensures WindowOk(Published(m, t), t.mss, t.limit)
  {
    hide Q16, BytesOf, Cube, EffectiveMin, Floor, Published;
    FloorFacts(m, t.mss, t.limit);
    FloorIsMin(m, t);
    PublishedStored(m, t);
    PublishFacts(m, t);
    FloorSame(m, Published(m, t), t);
  }

  /** Publication touches cwnd and ssthresh only. */
  lemma PublishFacts(m: Model, t: Transport)
    ensures var p := Published(m, t); p == m.(cwnd := p.cwnd, ssthresh := p.ssthresh)
  {
    hide BytesOf, Q16;
  }

  lemma FloorSame(m: Model, m': Model, t: Transport)
    requires m'.minCwnd == m.minCwnd
    ensures Floor(m, t.mss, t.limit) == Floor(m', t.mss, t.limit)
  {
  }

  // --------------------------------------------------------------- each event keeps it

  /** Normalizing a state that already satisfies the bounds changes nothing. */
  lemma NormalizedIdle(m: Model, t: Transport)
    requires WindowOk(m, t.mss, t.limit)
    ensures SyncedMss(m, t.mss) == m && Normalized(m, t) == m
  {
    hide Q16, BytesOf, Cube;
  }

  lemma SlowStartLoose(m: Model, h: Hystart, t: Transport, acked: u32)
    requires WindowOk(m, t.mss, t.limit) && m.cwnd < m.ssthresh
    ensures var grown := Finished(SlowStarted(m, h, t, acked), h).0;
      Loose(grown, t.mss, t.limit) && grown.minCwnd == m.minCwnd
  {
    hide Q16, BytesOf, Cube;
    var bytes := BytesOf(m.cwnd, t.mss, t.limit);
    var increase := if h.ackCss then acked / CSS_GROWTH_DIVISOR else acked;
    Q16Mono(Min(bytes + increase, t.limit), t.limit, t.mss);
    assert Cube(0) == 0 by { CubeAtLeast(0); CubeOfZero(); }
  }

  lemma CubeOfZero()
    ensures Cube(0) == 0
  {
  }

  lemma EpochLoose(m: Model, mss: u32, limit: u32, now: u64)
    requires WindowOk(m, mss, limit) && m.cwnd >= m.ssthresh
    ensures WindowOk(EpochStarted(m, now), mss, limit) && EpochStarted(m, now).cwnd == m.cwnd
  {
    hide Q16, BytesOf, Cube, FloorCbrt, SatMul;
    CubeOfZero();
  }

  lemma AvoidedLoose(e: Model, t: Transport, acked: u32, now: u64, srtt: u64)
    requires WindowOk(e, t.mss, t.limit) && e.epochActive
    ensures Loose(Avoided(e, t, acked, now, srtt), t.mss, t.limit)
    ensures Avoided(e, t, acked, now, srtt).cwnd >= e.cwnd
  {
    hide Q16, BytesOf, Cube, Window, TimeQ10, GrownWEst, Stepped, Sub64, SatAdd;
  }

  lemma ReducedLoose(m: Model, t: Transport, floorSegments: u32)
    requires WindowOk(m, t.mss, t.limit)
    ensures Loose(Reduced(m, t, floorSegments), t.mss, t.limit)
    ensures Loose(TimedOut(m, t), t.mss, t.limit)
  {
    hide Q16, BytesOf, Cube, BetaFlight;
    NormalizedIdle(m, t);
    CubeOfZero();
    FloorFacts(m, t.mss, t.limit);
    BetaBelowLimit(t, floorSegments);
    Q16Mono(Max(BetaFlight(t, floorSegments), EffectiveMin(m.minCwnd, t)), t.limit, t.mss);
    BetaBelowLimit(t, 2);
    Q16Mono(BetaFlight(t, 2), t.limit, t.mss);
  }

  lemma BetaBelowLimit(t: Transport, floorSegments: u32)
    ensures BetaFlight(t, floorSegments) <= t.limit
  {
  }

  // ------------------------------------------------------------------ HyStart++ lifecycle

  /** Kept by every event, accepted or not, at any MSS and limit: one exit at most,
      nothing pending or in CSS once finished, and CSS past its fifth round only
      while an exit pends. */
  predicate Lifecycle(h: Hystart)
  {
    && h.enabled == !h.complete && h.exits <= 1 && (h.enabled ==> h.exits == 0)
    && (h.css || h.exitPending ==> h.enabled)
    && (h.css && !h.exitPending ==> h.cssRounds < CSS_ROUNDS)
  }

  /** At a fixed transport a pending exit is only ever found in slow start. */
  predicate Joint(m: Model, h: Hystart) { Lifecycle(h) && (h.exitPending ==> m.cwnd < m.ssthresh) }

  /** The ACK that completes the fifth round of CSS. */
  predicate FifthRound(m: Model, h: Hystart, t: Transport, ack: Ack)
  {
    && h.css && h.cssRounds + 1 >= CSS_ROUNDS && m.cwnd < m.ssthresh && m.mss == t.mss
    && h.nextRound != 0 && ack.deliveredTotal >= h.nextRound
  }

  /** What the observer may do on one ACK. An exit is only ever raised in slow
      start, by the ACK that completes the fifth CSS round. */
  lemma ObserverFacts(m: Model, h: Hystart, t: Transport, ack: Ack)
    requires Lifecycle(h)
    ensures var h1 := HystartAck(m, h, t, ack);
      && Lifecycle(h1)
      && h1.enabled == h.enabled && h1.complete == h.complete && h1.exits == h.exits && h1.ackCss == h.css
      && (h1.exitPending <==> h.exitPending || FifthRound(m, h, t, ack))
  {
  }

  // ------------------------------------------------------------------------ shape of an ACK

  ghost function InEpoch(m: Model, now: u64): Model { if m.epochActive then m else EpochStarted(m, now) }

  /** The state in which growth happens. */
  function Base(m: Model, now: u64): Model { Acked(Resumed(m, now), now) }

  function Credit(m: Model, h1: Hystart, t: Transport, ack: Ack): u32
  { if m.cwnd < m.ssthresh then SlowStartCredit(ack.acked, t.mss, h1.paced) else ack.acked }

  /** An accepted ACK in its three forms: slow start, paused, congestion avoidance. */
  ghost function Outcome(m: Model, h1: Hystart, t: Transport, credit: u32, ack: Ack): Result
  {
    if m.cwnd < m.ssthresh then
      var (grown, h2) := Finished(SlowStarted(Base(m, ack.time), h1, t, credit), h1);
      Publishing(grown, h2, t)
    else if ack.appLimited then Publishing(Acked(Paused(m, ack.time), ack.time), h1, t)
    else Publishing(Avoided(InEpoch(Base(m, ack.time), ack.time), t, credit, ack.time, ack.srtt), h1, t)
  }

  lemma AckShape(m: Model, h: Hystart, t: Transport, ack: Ack)
    requires WindowOk(m, t.mss, t.limit) && Joint(m, h)
    ensures var h1, r := HystartAck(m, h, t, ack), AckStep(m, h, t, ack);
      var credit := Credit(m, h1, t, ack);
      && (r.Accepted? <==>
            && ack.time != 0 && credit != 0 && (m.ackEvents == 0 || ack.time >= m.lastAck)
            && (m.cwnd < m.ssthresh || ack.appLimited || ack.srtt != 0))
      && r == if r.Accepted? then Outcome(m, h1, t, credit, ack)
              else Rejected(m, if ack.time == 0 then h else h1)
  {
    hide Loose, HystartAck, SlowStartCredit, SlowStarted, Published, PolicyOf, Avoided, EpochStarted, Normalized,
      SyncedMss, Resumed, Paused;
    LooseFacts(m, t.mss, t.limit);
    NormalizedIdle(m, t);
    ObserverFacts(m, h, t, ack);
    ResumedFacts(m, ack.time);
    PausedFacts(m, ack.time);
  }

  lemma LooseFacts(m: Model, mss: u32, limit: u32)
    requires Loose(m, mss, limit)
    ensures FixedTransport(mss, limit) && m.mss == mss
  {
  }

  /** Pausing and resuming touch only the clock. */
  lemma ResumedFacts(m: Model, now: u64)
    ensures var r := Resumed(m, now);
      r == m.(epochStart := r.epochStart, paused := false, appSince := r.appSince) && (!m.paused ==> r == m)
  {
  }

  lemma PausedFacts(m: Model, now: u64)
    ensures var r := Paused(m, now); r == m.(paused := true, appSince := r.appSince) && (m.paused ==> r == m)
  {
  }

  lemma ClockOnly(m: Model, m': Model, mss: u32, limit: u32)
    requires WindowOk(m, mss, limit)
    requires m' == m.(epochStart := m'.epochStart, paused := m'.paused, appSince := m'.appSince,
                      lastAck := m'.lastAck, ackEvents := m'.ackEvents)
    ensures WindowOk(m', mss, limit) && Visible(m', mss, limit) == Visible(m, mss, limit)
  {
    hide Q16, BytesOf, Cube;
  }

  /** Every accepted event keeps the window invariant and publishes the visible
      window, between the effective minimum and the limit. */
  lemma WindowKept(m: Model, h: Hystart, mss: u32, limit: u32, e: Event)
    requires WindowOk(m, mss, limit) && Joint(m, h)
    ensures var r := Step(m, h, mss, limit, e);
      r.Accepted? ==>
        && WindowOk(r.m, mss, limit) && r.m.minCwnd == m.minCwnd
        && r.policy.cwnd == Visible(r.m, mss, limit)
        && Floor(m, mss, limit) <= r.policy.cwnd <= limit
  {
    hide WindowOk, HystartAck, SlowStartCredit, SlowStarted, Published, PolicyOf, Avoided, EpochStarted,
      Reduced, TimedOut, Visible, Floor, Handover, AckStep;
    var t := Transport(mss, e.inflight, limit);
    match e
    case AckEvent(ack, _) =>
      AckShape(m, h, t, ack);
      var now, h1 := ack.time, HystartAck(m, h, t, ack);
      var base, credit := Base(m, now), Credit(m, h1, t, ack);
      ResumedFacts(m, now);
      PausedFacts(m, now);
      ClockOnly(m, base, mss, limit);
      var limited := Acked(Paused(m, now), now);
      ClockOnly(m, limited, mss, limit);
      if m.cwnd < m.ssthresh {
        SlowStartLoose(base, h1, t, credit);
        PublishKeeps(m, Finished(SlowStarted(base, h1, t, credit), h1).0, t);
      } else if ack.appLimited {
        WindowLoose(limited, mss, limit);
        PublishKeeps(m, limited, t);
      } else {
        if !base.epochActive { EpochLoose(base, mss, limit, now); EpochMin(base, now); }
        var e := InEpoch(base, now);
        AvoidedLoose(e, t, credit, now, ack.srtt);
        AvoidedMin(e, t, credit, now, ack.srtt);
        PublishKeeps(m, Avoided(e, t, credit, now, ack.srtt), t);
      }
    case LossEvent(_, _) =>
      ReducedLoose(m, t, 2);
      WindowLoose(m, mss, limit);
      ReducedMin(m, t, 2);
      PublishKeeps(m, Reduced(m, t, 2), t);
    case EcnEvent(_) =>
      ReducedLoose(m, t, 1);
      WindowLoose(m, mss, limit);
      ReducedMin(m, t, 1);
      PublishKeeps(m, Reduced(m, t, 1), t);
    case TimeoutEvent(_) =>
      ReducedLoose(m, t, 2);
      WindowLoose(m, mss, limit);
      ReducedMin(m, t, 2);
      PublishKeeps(m, TimedOut(m, t), t);
  }

  lemma WindowLoose(m: Model, mss: u32, limit: u32)
    requires WindowOk(m, mss, limit)
    ensures Loose(m, mss, limit) && m.mss == mss > 0
  {
    hide Cube, Q16, BytesOf;
  }

  lemma PublishKeeps(m: Model, grown: Model, t: Transport)
    requires Loose(grown, t.mss, t.limit) && grown.minCwnd == m.minCwnd
    ensures var p := Published(grown, t);
      && WindowOk(p, t.mss, t.limit) && p.minCwnd == m.minCwnd
      && PolicyOf(grown, t).cwnd == Visible(p, t.mss, t.limit)
      && Floor(m, t.mss, t.limit) <= PolicyOf(grown, t).cwnd <= t.limit
  {
    hide Loose, Q16, BytesOf;
    PublishedOk(grown, t);
  }

  lemma EpochMin(m: Model, now: u64)
    ensures EpochStarted(m, now).minCwnd == m.minCwnd && EpochStarted(m, now).epochActive
  {
    hide FloorCbrt, SatMul;
  }

  lemma AvoidedMin(e: Model, t: Transport, acked: u32, now: u64, srtt: u64)
    ensures Avoided(e, t, acked, now, srtt).minCwnd == e.minCwnd
  {
    hide Window, TimeQ10, GrownWEst, Stepped, BytesOf, Sub64, SatAdd, Q16;
  }

  lemma ReducedMin(m: Model, t: Transport, floorSegments: u32)
    requires m.mss > 0
    ensures Reduced(m, t, floorSegments).minCwnd == m.minCwnd && TimedOut(m, t).minCwnd == m.minCwnd
  {
    hide Q16, BytesOf, BetaFlight;
  }
}
