/** The CUBIC model with HyStart++ and the controller that drives them: what each
    event does to the state, as functions. */
module CubicModel {
  import opened Words
  import opened CubicMath

  datatype Transport = Transport(mss: u32, inflight: u32, limit: u32)
  datatype Ack = Ack(acked: u32, time: u64, srtt: u64, appLimited: bool, rttValid: bool, rtt: u64, deliveredTotal: u64)
  datatype Policy = Policy(cwnd: u32, ssthresh: u32)

  /** `struct tcp_shift_cubic_model` without its telemetry counters. */
  datatype Model = Model(
    cwnd: u64, ssthresh: u64, wMax: u64, wEst: u64, cwndPrior: u64, cwndEpoch: u64, lastTarget: u64,
    k: u64, epochStart: u64, lastAck: u64, appSince: u64,
    mss: u32, minCwnd: u32, ackEvents: nat,
    hasWMax: bool, epochActive: bool, paused: bool, afterTimeout: bool, fastConvergence: bool)

  /** Its HyStart++ part. */
  datatype Hystart = Hystart(
    lastMin: u64, currentMin: u64, baseline: u64, nextRound: u64,
    samples: u32, cssRounds: nat, exits: nat,
    enabled: bool, css: bool, ackCss: bool, exitPending: bool, complete: bool, paced: bool)

  /** State after an event and, if it was accepted, the policy it published. */
  datatype Result = Rejected(m: Model, h: Hystart) | Accepted(m: Model, h: Hystart, policy: Policy)

  // ------------------------------------------------------------- bounds and publication

  function EffectiveMin(minCwnd: u32, t: Transport): u32 { Min(Max(minCwnd, t.mss), t.limit) }
  function LimitQ(t: Transport): u64 { Q16(t.limit, t.mss) }
  function MinQ(minCwnd: u32, t: Transport): u64 { Q16(EffectiveMin(minCwnd, t), t.mss) }

  function Rescaled(q: u64, oldMss: u32, newMss: u32): u64
    requires oldMss > 0
  {
    hide MulOverflows;
    if q == 0 || oldMss == newMss then q
    else if newMss == 0 || MulOverflows(q, oldMss) then U64_MAX
    else
      MulNonNegative(q, oldMss);
      DivFacts(q * oldMss, newMss);
      q * oldMss / newMss
  }

  function SyncedMss(m: Model, mss: u32): Model
    requires m.mss > 0
  {
    if m.mss == mss then m else
    m.(cwnd := Rescaled(m.cwnd, m.mss, mss), ssthresh := Rescaled(m.ssthresh, m.mss, mss),
       wMax := Rescaled(m.wMax, m.mss, mss), wEst := Rescaled(m.wEst, m.mss, mss),
       cwndPrior := Rescaled(m.cwndPrior, m.mss, mss), cwndEpoch := Rescaled(m.cwndEpoch, m.mss, mss),
       lastTarget := Rescaled(m.lastTarget, m.mss, mss), mss := mss)
  }

  function Normalized(m: Model, t: Transport): Model
  {
    m.(cwnd := Min(Max(m.cwnd, MinQ(m.minCwnd, t)), LimitQ(t)), ssthresh := Min(m.ssthresh, LimitQ(t)))
  }

  /** `tcp_shift_cubic_publish`: the state it leaves behind. */
  function Published(m: Model, t: Transport): Model
  {
    var n := Normalized(m, t);
    var minimum := EffectiveMin(m.minCwnd, t);
    n.(cwnd := if BytesOf(n.cwnd, t.mss, t.limit) < minimum then Q16(minimum, t.mss) else n.cwnd,
       ssthresh := if BytesOf(n.ssthresh, t.mss, t.limit) == 0 then Q16(minimum, t.mss) else n.ssthresh)
  }

  /** ... and the policy it publishes. */
  function PolicyOf(m: Model, t: Transport): Policy
  {
    var n := Normalized(m, t);
    var minimum := EffectiveMin(m.minCwnd, t);
    var ssthresh := BytesOf(n.ssthresh, t.mss, t.limit);
    Policy(Max(BytesOf(n.cwnd, t.mss, t.limit), minimum), if ssthresh == 0 then minimum else ssthresh)
  }

  function Publishing(m: Model, h: Hystart, t: Transport): Result { Accepted(Published(m, t), h, PolicyOf(m, t)) }

  // ----------------------------------------------------------------------- HyStart++

  const MIN_RTT_THRESH: u64 := 4_000_000
  const MAX_RTT_THRESH: u64 := 16_000_000
  const MIN_SAMPLES := 8
  const CSS_ROUNDS := 5
  const CSS_GROWTH_DIVISOR := 4
  const NON_PACED_L := 8

  const ARMED := Hystart(U64_MAX, U64_MAX, U64_MAX, 0, 0, 0, 0, true, false, false, false, false, false)

  function Disabled(h: Hystart): Hystart
  { h.(enabled := false, css := false, ackCss := false, exitPending := false, complete := true) }

  function DelayThreshold(lastMin: u64): u64
  { Min(Max(lastMin / 8, MIN_RTT_THRESH), MAX_RTT_THRESH) }

  predicate NewRound(h: Hystart, ack: Ack)
  { h.nextRound == 0 || (ack.deliveredTotal != 0 && ack.deliveredTotal >= h.nextRound) }

  function RoundStarted(h: Hystart, t: Transport, ack: Ack): Hystart
  {
    h.(lastMin := h.currentMin, currentMin := U64_MAX, samples := 0,
       nextRound := SatAdd(ack.deliveredTotal, t.inflight))
  }

  /** One RTT sample: leave CSS when the delay spike has passed, enter it when the
      round's minimum exceeds the last round's by the threshold. */
  function Sampled(h: Hystart, ack: Ack): Hystart
  {
    if !ack.rttValid || ack.rtt == 0 then h
    else Judged(h.(currentMin := Min(h.currentMin, ack.rtt),
                   samples := if h.samples == U32_MAX then h.samples else h.samples + 1))
  }

  function Judged(s: Hystart): Hystart
  {
    if s.css then
      if s.samples >= MIN_SAMPLES && s.currentMin < s.baseline
      then s.(css := false, baseline := U64_MAX, cssRounds := 0) else s
    else if s.samples < MIN_SAMPLES || s.lastMin == U64_MAX || s.currentMin == U64_MAX then s
    else if s.currentMin >= SatAdd(s.lastMin, DelayThreshold(s.lastMin))
    then s.(baseline := s.currentMin, css := true, cssRounds := 0) else s
  }

  /** `tcp_shift_cubic_hystart_on_ack` for a valid clock and MSS. */
  function HystartAck(m: Model, h: Hystart, t: Transport, ack: Ack): Hystart
  {
    var noted := h.(ackCss := h.css);
    if !h.enabled || h.complete || m.cwnd >= m.ssthresh || m.mss != t.mss then noted
    else if NewRound(noted, ack) then
      if noted.css && noted.nextRound != 0 then
        var counted := noted.(cssRounds := noted.cssRounds + 1);
        if counted.cssRounds >= CSS_ROUNDS then counted.(exitPending := true)
        else Sampled(RoundStarted(counted, t, ack), ack)
      else Sampled(RoundStarted(noted, t, ack), ack)
    else Sampled(noted, ack)
  }

  /** `tcp_shift_cubic_finish_hystartpp`: hand over to CUBIC at the current window. */
  function Handover(m: Model): Model
  {
    m.(ssthresh := m.cwnd, cwndPrior := m.cwnd, wMax := m.cwnd, hasWMax := true,
       k := 0, epochActive := false, afterTimeout := false)
  }

  function Exited(h: Hystart): Hystart
  {
    h.(enabled := false, css := false, ackCss := false, exitPending := false, complete := true, exits := h.exits + 1)
  }

  function SlowStartCredit(acked: u32, mss: u32, paced: bool): u32
  {
    if acked == 0 || mss == 0 then 0
    else if paced then acked
    else Min(acked, if mss > U32_MAX / NON_PACED_L then U32_MAX else mss * NON_PACED_L)
  }

  // ------------------------------------------------------------------ congestion avoidance

  /** `tcp_shift_cubic_start_epoch`. */
  ghost function EpochStarted(m: Model, now: u64): Model
  {
    var e := m.(epochStart := now, cwndEpoch := m.cwnd, wEst := m.cwnd, lastTarget := m.cwnd, epochActive := true,
                cwndPrior := if m.cwndPrior == 0 then m.cwnd else m.cwndPrior);
    if m.afterTimeout || !m.hasWMax then e.(wMax := m.cwnd, hasWMax := true, k := 0, afterTimeout := false)
    else if m.wMax <= m.cwnd then e.(k := 0)
    else
      EpochRootFits(m.wMax, m.cwnd);
      e.(k := FloorCbrt(SatMul(m.wMax - m.cwnd, SCALE)))
  }

  lemma EpochRootFits(wMax: u64, cwnd: u64)
    requires cwnd < wMax
    ensures FloorCbrt(SatMul(wMax - cwnd, SCALE)) <= U64_MAX
  {
    hide SatMul, FloorCbrt, Cube;
    CubeAtLeast(FloorCbrt(SatMul(wMax - cwnd, SCALE)));
  }

  function RatioQ16(num: u32, den: u32): (q: u64)
    ensures q <= Q16_BOUND
  {
    if den == 0 then 0 else
    DivFacts(num * Q_ONE, den);
    num * Q_ONE / den
  }

  /** `tcp_shift_cubic_update_w_est`. */
  function GrownWEst(m: Model, acked: u32, cwndBytes: u32, limitQ: u64): (w: u64)
    ensures w <= limitQ
  {
    var ratio := RatioQ16(acked, cwndBytes);
    var increment: u64 := if m.wEst < m.cwndPrior then ratio * 9 / 17 else ratio;
    Min(SatAdd(m.wEst, increment), limitQ)
  }

  function Sub64(a: u64, b: u64): u64 { (a - b) % (U64_MAX + 1) }

  /** The part of `tcp_shift_cubic_model_on_ack` that runs inside an epoch. */
  function Avoided(e: Model, t: Transport, acked: u32, now: u64, srtt: u64): Model
  {
    hide Window, TimeQ10, BytesOf;
    var limitQ := LimitQ(t);
    var w := e.(wEst := GrownWEst(e, acked, BytesOf(e.cwnd, t.mss, t.limit), limitQ));
    var elapsed := TimeQ10(Sub64(now, e.epochStart));
    if Window(w.wMax, w.k, elapsed) < w.wEst then
      w.(cwnd := Max(w.cwnd, w.wEst), lastTarget := w.wEst)
    else
      var reach := Window(w.wMax, w.k, SatAdd(elapsed, NonzeroTimeQ10(srtt)));
      var upper := Min(SatAdd(w.cwnd, w.cwnd / 2), limitQ);
      var target := Min(Max(reach, w.cwnd), upper);
      w.(lastTarget := target, cwnd := Stepped(w.cwnd, target))
  }

  /** cwnd moves towards the target by (target - cwnd) / cwnd segments. */
  function Stepped(cwnd: u64, target: u64): (r: u64)
    ensures r >= cwnd
  {
    var difference := Sub64(target, cwnd);
    if difference != 0 && cwnd != 0 then
      DivFacts((difference * Q_ONE) % (U64_MAX + 1), cwnd);
      SatAdd(cwnd, (difference * Q_ONE) % (U64_MAX + 1) / cwnd)
    else cwnd
  }

  // ------------------------------------------------------------------------- model events

  /** An application-limited ACK in congestion avoidance stops the epoch clock. */
  function Paused(m: Model, now: u64): Model
  {
    if m.paused then m
    else m.(paused := true, appSince := if m.ackEvents != 0 then m.lastAck else now)
  }

  /** Any other ACK restarts it, moving the epoch start past the pause. */
  function Resumed(m: Model, now: u64): Model
  {
    if !m.paused then m else
    m.(epochStart := if m.epochActive && now >= m.appSince
                     then SatAdd(m.epochStart, now - m.appSince) else m.epochStart,
       paused := false, appSince := 0)
  }

  function Acked(m: Model, now: u64): Model { m.(lastAck := now, ackEvents := m.ackEvents + 1) }

  /** Slow-start growth in bytes, a quarter of it during CSS. */
  function SlowStarted(m: Model, h: Hystart, t: Transport, acked: u32): Model
  {
    hide BytesOf;
    var bytes := BytesOf(m.cwnd, t.mss, t.limit);
    var increase := if h.ackCss then acked / CSS_GROWTH_DIVISOR else acked;
    m.(cwnd := Q16(Min(bytes + increase, t.limit), t.mss))
  }

  function Finished(m: Model, h: Hystart): (Model, Hystart)
  {
    if h.exitPending then (Handover(m), Exited(h)) else (m, h)
  }

  /** `tcp_shift_cubic_model_on_ack`. */
  ghost function ModelAck(m0: Model, h: Hystart, t: Transport, acked: u32, appLimited: bool, now: u64,
      srtt: u64): Result
  {
    hide BytesOf, Window, FloorCbrt;
    if acked == 0 || t.mss == 0 || t.limit < t.mss || m0.mss == 0 then Rejected(m0, h) else
    var m1 := SyncedMss(m0, t.mss);
    if m1.ackEvents != 0 && now < m1.lastAck then Rejected(m1, h) else
    var m2 := Normalized(m1, t);
    var avoidance := m2.cwnd >= m2.ssthresh;
    if !appLimited && avoidance && srtt == 0 then Rejected(m2, h)
    else if appLimited && avoidance then
      var (m3, h3) := Finished(Acked(Paused(m2, now), now), h);
      Publishing(m3, h3, t)
    else
      var m3 := Acked(Resumed(m2, now), now);
      if m3.cwnd < m3.ssthresh then
        var (m4, h4) := Finished(SlowStarted(m3, h, t, acked), h);
        Publishing(m4, h4, t)
      else
        var e := if m3.epochActive then m3 else EpochStarted(m3, now);
        Publishing(Avoided(e, t, acked, now, srtt), h, t)
  }

  function BetaFlight(t: Transport, floorSegments: u32): u32
  {
    var floor := Min(t.mss * floorSegments, t.limit);
    MulNonNegative(t.mss, floorSegments);
    Min(Max(Min(t.inflight * 7 / 10, U32_MAX), floor), t.limit)
  }

  predicate ValidTransport(t: Transport) { t.mss != 0 && t.limit >= t.mss }

  /** Loss and ECN share the reduction; only the floor differs. */
  function Reduced(m0: Model, t: Transport, floorSegments: u32): Model
    requires m0.mss > 0
  {
    var m := Normalized(SyncedMss(m0, t.mss), t);
    var wMax := if m.fastConvergence && m.hasWMax && m.cwnd < m.wMax then m.cwnd * 17 / 20 else m.cwnd;
    var reduced := Q16(Max(BetaFlight(t, floorSegments), EffectiveMin(m.minCwnd, t)), t.mss);
    m.(wMax := wMax, hasWMax := true, cwndPrior := m.cwnd, ssthresh := reduced, cwnd := reduced,
       epochActive := false, paused := false, appSince := 0, afterTimeout := false, k := 0)
  }

  function TimedOut(m0: Model, t: Transport): Model
    requires m0.mss > 0
  {
    var m := Normalized(SyncedMss(m0, t.mss), t);
    m.(cwndPrior := m.cwnd, ssthresh := Q16(BetaFlight(t, 2), t.mss), cwnd := MinQ(m.minCwnd, t),
       epochActive := false, paused := false, appSince := 0, afterTimeout := true, k := 0)
  }

  // -------------------------------------------------------------------- controller events

  datatype Event = AckEvent(ack: Ack, inflight: u32) | LossEvent(lost: u32, inflight: u32)
    | EcnEvent(inflight: u32) | TimeoutEvent(inflight: u32)

  /** `tcp_shift_cubic_controller_on_ack`: HyStart++ looks first, then the window grows. */
  ghost function AckStep(m: Model, h: Hystart, t: Transport, ack: Ack): Result
  {
    if ack.time == 0 || t.mss == 0 then Rejected(m, h) else
    var h1 := HystartAck(m, h, t, ack);
    var acked := if m.cwnd < m.ssthresh then SlowStartCredit(ack.acked, t.mss, h1.paced) else ack.acked;
    ModelAck(m, h1, t, acked, ack.appLimited, ack.time, ack.srtt)
  }

  ghost function Step(m: Model, h: Hystart, mss: u32, limit: u32, e: Event): Result
  {
    var t := Transport(mss, e.inflight, limit);
    match e
    case AckEvent(ack, _) => AckStep(m, h, t, ack)
    case LossEvent(lost, _) =>
      if lost == 0 || !ValidTransport(t) || m.mss == 0 then Rejected(m, h)
      else Publishing(Reduced(m, t, 2), Disabled(h), t)
    case EcnEvent(_) =>
      if !ValidTransport(t) || m.mss == 0 then Rejected(m, h)
      else Publishing(Reduced(m, t, 1), Disabled(h), t)
    case TimeoutEvent(_) =>
      if !ValidTransport(t) || m.mss == 0 then Rejected(m, h)
      else Publishing(TimedOut(m, t), Disabled(h), t)
  }

  /** `tcp_shift_cubic_model_init`'s demands on its caller. */
  predicate ValidInit(t: Transport, initial: u32, ssthresh: u32, minCwnd: u32)
  {
    && ValidTransport(t) && t.mss <= minCwnd <= initial <= t.limit
    && Min(2 * t.mss, t.limit) <= ssthresh <= t.limit
  }

  function Initial(t: Transport, initial: u32, ssthresh: u32, minCwnd: u32): Model
  {
    Published(Model(Q16(initial, t.mss), Q16(ssthresh, t.mss), 0, 0, 0, 0, 0, 0, 0, 0, 0,
                    t.mss, minCwnd, 0, false, false, false, false, true), t)
  }
}
