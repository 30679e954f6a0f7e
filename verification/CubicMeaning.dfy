/** What CUBIC's controller events mean, in bytes and numbers: congestion events,
    timeouts, ACKs in each phase, and HyStart++'s verdicts. */
module CubicMeaning {
  import opened Words
  import opened CubicMath
  import opened CubicModel
  import opened CubicRuns
  import opened CubicLaws

  // ------------------------------------------------------------------- congestion events

  /** Seven tenths of the flight, at least so many segments, within the limit. */
  function SevenTenths(inflight: u32, mss: u32, limit: u32, segments: nat): nat
    requires mss <= limit
  { MulNonNegative(mss, segments); Min(Max(inflight * 7 / 10, Min(mss * segments, limit)), limit) }

  /** The least window ever published. */
  function Least(minCwnd: u32, mss: u32, limit: u32): nat { Min(Max(minCwnd, mss), limit) }

  predicate OneByteBelow(published: nat, wanted: nat) { wanted - 1 <= published <= wanted }

  predicate Observed(h: Hystart) { h.enabled && !h.complete }

  /** A loss (a floor of two segments) or an ECN mark (one) at any transport: the stored
      window and threshold are the Q16 value of seven tenths of the flight, within the
      floors and the limit; the published ones are that number of bytes, less the one
      byte Q16 may lose. W_max is the old window, or 85 per cent of it when the last W_max
      was larger; and slow start is over for good. */
  lemma ReductionLaw(m: Model, h: Hystart, mss: u32, limit: u32, e: Event)
    requires m.mss > 0 && (e.LossEvent? || e.EcnEvent?)
    ensures var r := Step(m, h, mss, limit, e);
      if mss == 0 || limit < mss || (e.LossEvent? && e.lost == 0) then r == Rejected(m, h) else
      var prior := Adjusted(m, Transport(mss, e.inflight, limit));
      var wanted := Max(SevenTenths(e.inflight, mss, limit, if e.LossEvent? then 2 else 1),
          Least(m.minCwnd, mss, limit));
      && r.Accepted? && r.m.cwnd == r.m.ssthresh == wanted * Q_ONE / mss
      && (mss <= Q_ONE ==> OneByteBelow(r.policy.cwnd, wanted) && OneByteBelow(r.policy.ssthresh, wanted))
      && r.m.cwndPrior == prior.cwnd && r.m.hasWMax
      && r.m.wMax == (if m.fastConvergence && m.hasWMax && prior.cwnd < prior.wMax then prior.cwnd * 17 / 20
                      else prior.cwnd)
      && !r.m.epochActive && !r.m.paused && !r.m.afterTimeout && !Observed(r.h) && !r.h.css && !r.h.exitPending
  {
    hide Q16, BytesOf, SyncedMss, Normalized, BetaFlight, Published, PolicyOf;
    if mss != 0 && limit >= mss && (e.EcnEvent? || e.lost != 0) {
      var t, segments := Transport(mss, e.inflight, limit), if e.LossEvent? then 2 else 1;
      BetaMeaning(t, segments);
      AdjustedFrame(m, t);
      var wanted := Max(BetaFlight(t, segments), EffectiveMin(m.minCwnd, t));
      var g := Reduced(m, t, segments);
      PublishFacts(g, t);
      PublishedBytes(g, t, wanted, wanted);
      StoredBytes(wanted, mss);
    }
  }

  lemma StoredBytes(bytes: u32, mss: u32)
    requires mss > 0
    ensures Q16(bytes, mss) == bytes * Q_ONE / mss
  {
  }

  lemma AdjustedFrame(m: Model, t: Transport)
    requires m.mss > 0
    ensures var a := Adjusted(m, t);
      && a.minCwnd == m.minCwnd && a.fastConvergence == m.fastConvergence && a.hasWMax == m.hasWMax
      && (m.mss == t.mss ==> a == m.(cwnd := a.cwnd, ssthresh := a.ssthresh))
  {
    hide Q16, Rescaled;
  }

  /** Publishing a state that holds whole byte counts within the bounds. */
  lemma PublishedBytes(g: Model, t: Transport, window: u32, threshold: u32)
    requires ValidTransport(t) && EffectiveMin(g.minCwnd, t) <= window <= t.limit && t.mss <= threshold <= t.limit
    requires g.cwnd == Q16(window, t.mss) && g.ssthresh == Q16(threshold, t.mss)
    ensures Published(g, t).cwnd == g.cwnd && Published(g, t).ssthresh == g.ssthresh
    ensures PolicyOf(g, t).cwnd == Max(BytesOf(g.cwnd, t.mss, t.limit), EffectiveMin(g.minCwnd, t))
    ensures t.mss <= Q_ONE ==>
      OneByteBelow(PolicyOf(g, t).cwnd, window) && OneByteBelow(PolicyOf(g, t).ssthresh, threshold)
  {
    hide Q16, BytesOf;
    var minimum := EffectiveMin(g.minCwnd, t);
    Q16Mono(minimum, window, t.mss);
    Q16Mono(window, t.limit, t.mss);
    Q16Mono(threshold, t.limit, t.mss);
    Q16AtLeastOne(threshold, t.mss);
    PublishedStored(g, t);
    ThresholdBytes(g.ssthresh, t.mss, t.limit);
    if t.mss <= Q_ONE {
      RoundTrip(window, t.mss, t.limit);
      RoundTrip(threshold, t.mss, t.limit);
    }
  }

  lemma ThresholdBytes(q: u64, mss: u32, limit: u32)
    requires Q_ONE <= q <= Q16_BOUND && 0 < mss <= limit
    ensures BytesOf(q, mss, limit) >= mss
  {
    BytesExact(q, mss, limit);
    hide BytesOf;
    MulMono(Q_ONE, q, mss);
    DivMono(mss * Q_ONE + 0, q * mss, Q_ONE);
    DivOfMultiplePlus(mss, 0, Q_ONE);
  }

  /** A retransmission timeout at any transport publishes the effective minimum, stores
      seven tenths of the flight (two segments at least) as the threshold, remembers the
      old window, and leaves W_max alone until the next epoch resets it. */
  lemma TimeoutLaw(m: Model, h: Hystart, mss: u32, limit: u32, inflight: u32)
    requires m.mss > 0
    ensures var r := Step(m, h, mss, limit, TimeoutEvent(inflight));
      if mss == 0 || limit < mss then r == Rejected(m, h) else
      var prior, wanted := Adjusted(m, Transport(mss, inflight, limit)), SevenTenths(inflight, mss, limit, 2);
      && r.Accepted? && r.policy.cwnd == Least(m.minCwnd, mss, limit) && r.m.cwnd == r.policy.cwnd * Q_ONE / mss
      && r.m.ssthresh == wanted * Q_ONE / mss && (mss <= Q_ONE ==> OneByteBelow(r.policy.ssthresh, wanted))
      && r.m.cwndPrior == prior.cwnd && r.m.wMax == prior.wMax && r.m.hasWMax == m.hasWMax
      && TimedOutState(r.m, r.h) && !r.m.paused
  {
    hide Q16, BytesOf, SyncedMss, Normalized, BetaFlight, Published, PolicyOf;
    if mss != 0 && limit >= mss {
      var t := Transport(mss, inflight, limit);
      BetaMeaning(t, 2);
      AdjustedFrame(m, t);
      var minimum, wanted := EffectiveMin(m.minCwnd, t), BetaFlight(t, 2);
      var g := TimedOut(m, t);
      PublishFacts(g, t);
      PublishedBytes(g, t, minimum, wanted);
      BytesAtMost(minimum, mss, limit);
      StoredBytes(minimum, mss);
      StoredBytes(wanted, mss);
    }
  }

  lemma BytesAtMost(x: u32, mss: u32, limit: u32)
    requires mss > 0
    ensures BytesOf(Q16(x, mss), mss, limit) <= x
  {
    BytesExact(Q16(x, mss), mss, limit);
    QuotientTimes(x, mss);
    hide BytesOf, Q16;
    DivMono(Q16(x, mss) * mss, x * Q_ONE + 0, Q_ONE);
    DivOfMultiplePlus(x, 0, Q_ONE);
  }

  /** Between a timeout and the next epoch: no epoch, HyStart++ over. */
  predicate TimedOutState(m: Model, h: Hystart)
  { m.afterTimeout && !m.epochActive && h.complete && !h.enabled && !h.exitPending && !h.css }

  /** An accepted ACK after a timeout either keeps W_max (slow start, or a pause) or, in
      congestion avoidance, starts an epoch whose W_max is the window it starts at. */
  lemma AfterTimeout(m: Model, h: Hystart, t: Transport, ack: Ack)
    requires WindowOk(m, t.mss, t.limit) && Joint(m, h) && TimedOutState(m, h)
    requires AckStep(m, h, t, ack).Accepted?
    ensures var r := AckStep(m, h, t, ack);
      if m.cwnd < m.ssthresh || ack.appLimited
      then TimedOutState(r.m, r.h) && r.m.wMax == m.wMax && r.m.hasWMax == m.hasWMax && r.m.cwndPrior == m.cwndPrior
      else
        && r.m.wMax == m.cwnd && r.m.k == 0 && r.m.hasWMax && r.m.epochActive && !r.m.afterTimeout
        && r.m.epochStart == ack.time && r.m.cwndEpoch == m.cwnd
  {
    hide BytesOf, Q16, Window, TimeQ10, FloorCbrt, GrownWEst, Stepped, Published, PolicyOf, WindowOk, SlowStartCredit;
    AckShape(m, h, t, ack);
    ResumedFacts(m, ack.time);
    PausedFacts(m, ack.time);
    var h1 := HystartAck(m, h, t, ack);
    var credit := Credit(m, h1, t, ack);
    if m.cwnd < m.ssthresh {
      PublishFacts(Finished(SlowStarted(Base(m, ack.time), h1, t, credit), h1).0, t);
    } else if ack.appLimited {
      PublishFacts(Acked(Paused(m, ack.time), ack.time), t);
    } else {
      var e := InEpoch(Base(m, ack.time), ack.time);
      AvoidedFrame(e, t, credit, ack.time, ack.srtt);
      PublishFacts(Avoided(e, t, credit, ack.time, ack.srtt), t);
    }
  }

  lemma AvoidedFrame(e: Model, t: Transport, acked: u32, now: u64, srtt: u64)
    ensures var a := Avoided(e, t, acked, now, srtt);
      a == e.(cwnd := a.cwnd, wEst := a.wEst, lastTarget := a.lastTarget)
  {
    hide BytesOf, Q16, Window, TimeQ10, GrownWEst, Stepped, Sub64;
  }

  /** An epoch starts at the current window: W_max is kept unless a timeout or the first
      epoch replaces it. */
  lemma EpochLaw(m: Model, now: u64)
    ensures var e := EpochStarted(m, now);
      && e.epochActive && !(m.afterTimeout && e.afterTimeout) && e.hasWMax && e.epochStart == now
      && e.cwnd == e.cwndEpoch == e.wEst == e.lastTarget == m.cwnd
      && e.wMax == (if m.afterTimeout || !m.hasWMax then m.cwnd else m.wMax)
      && e.cwndPrior == (if m.cwndPrior == 0 then m.cwnd else m.cwndPrior) && (e.wMax <= m.cwnd ==> e.k == 0)
  {
    hide FloorCbrt, SatMul;
  }

  /** A valid initialisation stores the given window and threshold, with fast convergence
      on and nothing known. */
  lemma InitialLaw(t: Transport, initial: u32, ssthresh: u32, minCwnd: u32)
    requires ValidInit(t, initial, ssthresh, minCwnd)
    ensures var m := Initial(t, initial, ssthresh, minCwnd);
      && m.cwnd == initial * Q_ONE / t.mss && m.ssthresh == ssthresh * Q_ONE / t.mss && m.mss == t.mss
      && m.fastConvergence && !m.hasWMax && !m.epochActive && !m.paused && !m.afterTimeout && m.ackEvents == 0
  {
    hide Q16, BytesOf, Published;
    var g := Model(Q16(initial, t.mss), Q16(ssthresh, t.mss), 0, 0, 0, 0, 0, 0, 0, 0, 0,
                   t.mss, minCwnd, 0, false, false, false, false, true);
    PublishFacts(g, t);
    PublishedBytes(g, t, initial, ssthresh);
    StoredBytes(initial, t.mss);
    StoredBytes(ssthresh, t.mss);
  }

  /** A published threshold is never zero: it is the stored one in bytes, or else the
      effective minimum. */
  lemma ThresholdLaw(m: Model, t: Transport)
    requires ValidTransport(t)
    ensures var p, bytes := PolicyOf(m, t), BytesOf(Min(m.ssthresh, t.limit * Q_ONE / t.mss), t.mss, t.limit);
      && 0 < p.ssthresh <= t.limit && p.ssthresh == if bytes == 0 then Least(m.minCwnd, t.mss, t.limit) else bytes
  {
    hide Q16, BytesOf;
    StoredBytes(t.limit, t.mss);
  }

  // ------------------------------------------------------------------------ MSS changes

  /** Rescaling to another MSS keeps the window in bytes, up to the byte Q16 may lose. */
  lemma RescaleKeepsBytes(q: u64, oldMss: u32, newMss: u32, limit: u32)
    requires 0 < oldMss && 0 < newMss <= Q_ONE && q <= Q16_BOUND && Rescaled(q, oldMss, newMss) <= Q16_BOUND
    ensures OneByteBelow(BytesOf(Rescaled(q, oldMss, newMss), newMss, limit), BytesOf(q, oldMss, limit))
  {
    hide BytesOf;
    var q' := Rescaled(q, oldMss, newMss);
    BytesExact(q, oldMss, limit);
    BytesExact(q', newMss, limit);
    if q != 0 && oldMss != newMss {
      MulNonNegative(q, oldMss);
      var n := q * oldMss;
      hide Rescaled;
      assert n == (n / newMss) * newMss + n % newMss;
      assert q' == n / newMss by { RescaledIs(q, oldMss, newMss); }
      var lost := n % newMss;
      assert q' * newMss == n - lost;
      DivLoss(n, lost);
    }
  }

  lemma RescaledIs(q: u64, oldMss: u32, newMss: u32)
    requires q != 0 && oldMss != newMss && 0 < oldMss && 0 < newMss <= Q_ONE && Rescaled(q, oldMss, newMss) <= Q16_BOUND
    ensures 0 <= q * oldMss && Rescaled(q, oldMss, newMss) == q * oldMss / newMss
  {
    MulNonNegative(q, oldMss);
  }

  lemma DivLoss(n: nat, lost: nat)
    requires lost < Q_ONE && lost <= n
    ensures n / Q_ONE - 1 <= (n - lost) / Q_ONE <= n / Q_ONE
  {
  }

  // -------------------------------------------------------------------------- slow start

  /** Bytes an ACK may add in slow start: at most eight segments' worth without pacing,
      and a quarter of it in conservative slow start. */
  function Granted(acked: u32, mss: u32, h: Hystart): nat
  {
    var credit := if h.paced then acked else Min(acked, 8 * mss);
    if h.css then credit / 4 else credit
  }

  /** An accepted slow-start ACK adds what it is granted, within the limit, up to the
      one byte Q16 may lose. */
  lemma SlowStartLaw(m: Model, h: Hystart, t: Transport, ack: Ack)
    requires WindowOk(m, t.mss, t.limit) && Joint(m, h) && m.cwnd < m.ssthresh && AckStep(m, h, t, ack).Accepted?
    ensures var y := Min(Bytes(m.cwnd, t.mss, t.limit) + Granted(ack.acked, t.mss, h), t.limit);
      var floor := Least(m.minCwnd, t.mss, t.limit);
      Max(y - 1, floor) <= AckStep(m, h, t, ack).policy.cwnd <= Max(y, floor)
  {
    hide BytesOf, Q16, WindowOk, PolicyOf, Published, HystartAck, Loose, SlowStartCredit, SlowStarted, Floor, Visible;
    AckShape(m, h, t, ack);
    ObserverFacts(m, h, t, ack);
    PacedFixed(m, h, t, ack);
    WindowFixed(m, t);
    ResumedFacts(m, ack.time);
    var h1, base := HystartAck(m, h, t, ack), Base(m, ack.time);
    var credit := Credit(m, h1, t, ack);
    CreditIs(ack.acked, t.mss, h1.paced);
    ClockOnly(m, base, t.mss, t.limit);
    var y := Min(Bytes(m.cwnd, t.mss, t.limit) + Increase(credit, h1.ackCss), t.limit);
    SlowStartPublishes(base, h1, t, credit, y);
    FloorIsMin(base, t);
    FloorFacts(base, t.mss, t.limit);
    RoundTrip(y, t.mss, t.limit);
    ShownBytes(y, base, t);
  }

  lemma WindowFixed(m: Model, t: Transport)
    requires WindowOk(m, t.mss, t.limit)
    ensures FixedTransport(t.mss, t.limit)
  {
    hide BytesOf, Q16;
  }

  lemma CreditIs(acked: u32, mss: u32, paced: bool)
    requires 0 < mss <= Q_ONE
    ensures SlowStartCredit(acked, mss, paced) == if paced then acked else Min(acked, 8 * mss)
  {
  }

  lemma ShownBytes(y: u32, m: Model, t: Transport)
    requires FixedTransport(t.mss, t.limit) && y <= t.limit
    requires OneByteBelow(BytesOf(Q16(y, t.mss), t.mss, t.limit), y)
    ensures var floor := Floor(m, t.mss, t.limit);
      var shown := Max(Bytes(Max(Q16(y, t.mss), FloorQ(m, t.mss, t.limit)), t.mss, t.limit), floor);
      Max(y - 1, floor) <= shown <= Max(y, floor)
  {
    hide BytesOf, Q16, Floor;
    FloorFacts(m, t.mss, t.limit);
    var floor := Floor(m, t.mss, t.limit);
    if y > floor { Q16Mono(floor, y, t.mss); }
  }

  // --------------------------------------------------------------------------- HyStart++

  /** The round-trip times sampled in the last complete round and in this one. */
  datatype Rounds = Rounds(previous: seq<u64>, current: seq<u64>)

  function LeastOf(rtts: seq<u64>): u64
  { if rtts == [] then U64_MAX else Min(LeastOf(rtts[..|rtts| - 1]), rtts[|rtts| - 1]) }

  lemma {:induction false} LeastIsLeast(rtts: seq<u64>)
    ensures forall i :: 0 <= i < |rtts| ==> LeastOf(rtts) <= rtts[i]
    ensures rtts != [] ==> exists i :: 0 <= i < |rtts| && LeastOf(rtts) == rtts[i]
  {
    if rtts != [] {
      var n := |rtts| - 1;
      var before := rtts[..n];
      LeastIsLeast(before);
      assert forall i :: 0 <= i < n ==> before[i] == rtts[i];
      if LeastOf(rtts) != rtts[n] && n > 0 {
        var i :| 0 <= i < n && LeastOf(before) == before[i];
        assert LeastOf(rtts) == rtts[i];
      }
    }
  }

  /** The observer looks only at slow start, at the MSS it was told of. */
  predicate Watching(m: Model, h: Hystart, t: Transport) { Observed(h) && m.cwnd < m.ssthresh && m.mss == t.mss }

  /** What was delivered has passed the end of the round. */
  predicate RoundOver(h: Hystart, ack: Ack)
  { h.nextRound == 0 || (ack.deliveredTotal != 0 && ack.deliveredTotal >= h.nextRound) }

  /** The samples of an ACK go to the round it belongs to; the ACK that ends CSS has none. */
  function Observing(w: Rounds, m: Model, h: Hystart, t: Transport, ack: Ack): Rounds
  {
    if !Watching(m, h, t) || FifthRound(m, h, t, ack) then w else
    var r := if RoundOver(h, ack) then Rounds(w.current, []) else w;
    if ack.rttValid && ack.rtt != 0 then r.(current := r.current + [ack.rtt]) else r
  }

  predicate Recorded(h: Hystart, w: Rounds)
  { h.lastMin == LeastOf(w.previous) && h.currentMin == LeastOf(w.current) && h.samples == Min(|w.current|, U32_MAX) }

  /** An eighth of the last round's minimum, between four and sixteen milliseconds. */
  function Tolerance(lastMin: u64): nat
  {
    var eighth := lastMin / 8;
    if eighth < 4_000_000 then 4_000_000 else if eighth > 16_000_000 then 16_000_000 else eighth
  }

  /** The delay rose: eight samples this round, the least of them above the least of the
      last round by the tolerance. */
  predicate DelayRose(w: Rounds)
  {
    && |w.current| >= 8 && w.previous != [] && LeastOf(w.current) < U64_MAX && LeastOf(w.previous) < U64_MAX
    && LeastOf(w.current) >= LeastOf(w.previous) + Tolerance(LeastOf(w.previous))
  }

  /** Every verdict of the observer, in terms of the samples of two rounds: it enters
      conservative slow start exactly when the delay rose, and leaves it exactly when
      eight samples show that the delay fell below the baseline taken on entry. */
  lemma ObserverLaw(m: Model, h: Hystart, t: Transport, ack: Ack, w: Rounds)
    requires Recorded(h, w) && Lifecycle(h)
    ensures var h1, w1 := HystartAck(m, h, t, ack), Observing(w, m, h, t, ack);
      var sampled := ack.rttValid && ack.rtt != 0;
      && Recorded(h1, w1)
      && (!Watching(m, h, t) ==> h1 == h.(ackCss := h.css))
      && (Watching(m, h, t) && !FifthRound(m, h, t, ack) ==>
            && (h1.css <==>
                  if h.css then !(sampled && |w1.current| >= 8 && LeastOf(w1.current) < h.baseline)
                  else sampled && DelayRose(w1))
            && h1.baseline == (if h1.css == h.css then h.baseline
                               else if h1.css then LeastOf(w1.current) else U64_MAX)
            && h1.nextRound == (if RoundOver(h, ack) then SatAdd(ack.deliveredTotal, t.inflight) else h.nextRound)
            && h1.cssRounds == (if h1.css != h.css then 0
                                else if h.css && RoundOver(h, ack) && h.nextRound != 0 then h.cssRounds + 1
                                else h.cssRounds))
  {
    hide LeastOf;
    var w1 := Observing(w, m, h, t, ack);
    LeastUnknown();
    if Watching(m, h, t) && !FifthRound(m, h, t, ack) {
      var r := if RoundOver(h, ack) then Rounds(w.current, []) else w;
      LeastSnoc(r.current, ack.rtt);
      LeastKnown(w1.previous);
    }
  }

  lemma LeastUnknown()
    ensures LeastOf([]) == U64_MAX
  {
  }

  lemma LeastKnown(rtts: seq<u64>)
    ensures LeastOf(rtts) < U64_MAX ==> rtts != []
  {
  }

  lemma LeastSnoc(rtts: seq<u64>, rtt: u64)
    ensures LeastOf(rtts + [rtt]) == Min(LeastOf(rtts), rtt)
  {
    assert (rtts + [rtt])[..|rtts|] == rtts;
  }

  /** The samples of a whole run. */
  ghost function Watched(m: Model, h: Hystart, inputs: seq<Input>): Rounds
  {
    if inputs == [] then Rounds([], []) else
    var n := |inputs| - 1;
    var (m1, h1), i := Run(m, h, inputs[..n]), inputs[n];
    var w := Watched(m, h, inputs[..n]);
    match i.event
    case AckEvent(ack, inflight) =>
      if ack.time == 0 || i.mss == 0 then w
      else Observing(w, m1, h1, Transport(i.mss, inflight, i.limit), ack)
    case _ => w
  }

  /** Over every run, at any transport, the observer's minima and sample count are those
      of the last two rounds. */
  lemma {:induction false} ObserverOverRuns(m: Model, inputs: seq<Input>)
    ensures var h := Run(m, ARMED, inputs).1; Lifecycle(h) && Recorded(h, Watched(m, ARMED, inputs))
  {
    hide LeastOf, Step, HystartAck, Observing, Lifecycle;
    LeastUnknown();
    if inputs != [] {
      var n := |inputs| - 1;
      ObserverOverRuns(m, inputs[..n]);
      var (m1, h1) := Run(m, ARMED, inputs[..n]);
      LifecycleStep(m1, h1, inputs[n]);
      ObserverStep(m1, h1, inputs[n], Watched(m, ARMED, inputs[..n]));
    } else {
      ArmedOk();
    }
  }

  lemma ArmedOk()
    ensures Lifecycle(ARMED)
  {
  }

  lemma ObserverStep(m: Model, h: Hystart, i: Input, w: Rounds)
    requires Recorded(h, w) && Lifecycle(h)
    ensures var h' := Next(m, h, i).h;
      match i.event
      case AckEvent(ack, inflight) =>
        Recorded(h', if ack.time == 0 || i.mss == 0 then w
                     else Observing(w, m, h, Transport(i.mss, inflight, i.limit), ack))
      case _ => Recorded(h', w)
  {
    hide HystartAck, Observing, SlowStartCredit, Published, PolicyOf, Avoided, EpochStarted, SlowStarted, SyncedMss,
      Normalized, Lifecycle, LeastOf, Reduced, TimedOut;
    if i.event.AckEvent? { ObserverLaw(m, h, Transport(i.mss, i.event.inflight, i.limit), i.event.ack, w); }
  }
}
