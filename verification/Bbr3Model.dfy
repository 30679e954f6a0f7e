/** BBRv3: the bandwidth, RTT and full-pipe model, the ProbeBW scheduler, the
    congestion bounds and the controller that composes them on each ACK. */
module Bbr3Model {
  import opened Words
  import opened Scaling
  import opened RoundRing

  datatype Rate = Rate(
    valid: bool, appLimited: bool, rttValid: bool, rate: u64, rtt: u64, prior: u64, delivered: u64, sampled: u32)

  datatype Ack = Ack(
    rate: Rate, now: u64, lost: u64, ce: u64, txInflight: u64, acked: u32, inflight: u32, flags: Flags)
  datatype Flags = Flags(
    validatedLoss: bool, ecnEligible: bool, roundEnd: bool, probeSample: bool, cwndLimited: bool, idleRestart: bool)

  datatype Phase = Startup | Drain | Down | Cruise | Refill | Up | ProbeRTT

  predicate InProbeBW(p: Phase) { p == Down || p == Cruise || p == Refill || p == Up }

  // ------------------------------------------------------------------------------- model

  /** Maxima of the current and the previous probing cycle. */
  datatype Bw = Bw(even: u64, odd: u64, cycle: u32, max: u64)
  datatype Rounds = Rounds(next: u64, count: nat, start: bool)
  datatype Pipe = Pipe(bw: u64, count: nat, full: bool)
  datatype Rtts = Rtts(min: u64, minStamp: u64, probe: u64, probeStamp: u64, hasMin: bool, hasProbe: bool,
      expired: bool)
  datatype Model = Model(bw: Bw, rtts: Rtts, pipe: Pipe, rounds: Rounds, lastUpdate: u64, hasUpdate: bool, phase: Phase)

  const PROBE_RTT_INTERVAL := 5_000_000_000
  const MIN_RTT_WINDOW := 10_000_000_000
  const FULL_BW_ROUNDS := 3

  predicate Elapsed(now: u64, stamp: u64, age: u64) { now > stamp && now - stamp > age }

  function ProbeMinUpdated(r: Rtts, s: Rate, now: u64): Rtts
  {
    var expired := r.hasProbe && Elapsed(now, r.probeStamp, PROBE_RTT_INTERVAL);
    if s.rttValid && s.rtt != 0 && (!r.hasProbe || s.rtt < r.probe || expired)
    then r.(probe := s.rtt, probeStamp := now, hasProbe := true, expired := expired)
    else r.(expired := expired)
  }

  function MinRttUpdated(r: Rtts, now: u64): Rtts
  {
    if r.hasProbe && (!r.hasMin || r.probe < r.min || Elapsed(now, r.minStamp, MIN_RTT_WINDOW))
    then r.(min := r.probe, minStamp := r.probeStamp, hasMin := true) else r
  }

  function RttUpdated(r: Rtts, s: Rate, now: u64): Rtts { MinRttUpdated(ProbeMinUpdated(r, s, now), now) }

  function RoundUpdated(r: Rounds, s: Rate): Rounds
  {
    if s.delivered == 0 || s.prior < r.next then r.(start := false) else Rounds(s.delivered, r.count + 1, true)
  }

  function BwUpdated(b: Bw, s: Rate): Bw
  {
    if s.valid && s.rate != 0 && (s.rate >= b.max || !s.appLimited) then
      var even := if b.cycle % 2 == 0 then Max(s.rate, b.even) else b.even;
      var odd := if b.cycle % 2 == 1 then Max(s.rate, b.odd) else b.odd;
      Bw(even, odd, b.cycle, Max(even, odd))
    else b
  }

  function Threshold(bw: u64): u64 { SatAdd(bw, CeilDiv(bw, 4)) }

  function PipeUpdated(p: Pipe, roundStart: bool, bw: u64, s: Rate): Pipe
  {
    if p.full || !roundStart || !s.valid || s.appLimited || bw == 0 then p
    else if p.bw == 0 || bw >= Threshold(p.bw) then Pipe(bw, 0, false)
    else Pipe(p.bw, p.count + 1, p.count + 1 >= FULL_BW_ROUNDS)
  }

  predicate ModelRejects(m: Model, s: Rate, now: u64)
  { now == 0 || (m.hasUpdate && now < m.lastUpdate) || s.prior > s.delivered }

  /** `tcp_shift_bbr3_model_on_ack` when it does not reject. */
  function Estimated(m: Model, s: Rate, now: u64): Model
  {
    var rounds, bw := RoundUpdated(m.rounds, s), BwUpdated(m.bw, s);
    Model(bw, RttUpdated(m.rtts, s, now), PipeUpdated(m.pipe, rounds.start, bw.max, s), rounds, now, true, m.phase)
  }

  /** `tcp_shift_bbr3_model_advance_bw_cycle`: forget the older cycle. */
  function NextCycle(b: Bw): Bw
    requires b.cycle < U32_MAX
  {
    var even := if (b.cycle + 1) % 2 == 0 then 0 else b.even;
    var odd := if (b.cycle + 1) % 2 == 1 then 0 else b.odd;
    Bw(even, odd, b.cycle + 1, Max(even, odd))
  }

  function PacingGain(p: Phase): (nat, nat)
  {
    match p
    case Startup => (277, 100)
    case Drain => (1, 2)
    case Down => (9, 10)
    case Up => (5, 4)
    case _ => (1, 1)
  }

  function CwndGain(p: Phase): (nat, nat) { if p == Up then (9, 4) else if p == ProbeRTT then (1, 2) else (2, 1) }

  /** Room left below the long-term bound: 15 per cent, at least one segment, and
      never less than four segments of pipe. */
  function WithHeadroom(longterm: u64, mss: u32): u64
  {
    hide Scale3;
    if mss == 0 then 0
    else if longterm == U64_MAX then U64_MAX
    else
      var headroom := Max(Scale3(longterm, 15, 100), mss);
      Max(if longterm > headroom then longterm - headroom else 0, mss * 4)
  }

  // ---------------------------------------------------------------------- congestion bounds

  type Alpha = x: int | 0 <= x <= 256

  datatype Ecn = Ecn(delivered: u64, ce: u64, alpha: Alpha, seen: bool)
  datatype Growth = Growth(acked: u64, perInc: u64, rounds: nat)
  datatype Congestion = Congestion(
    shortBw: u64, shortInflight: u64, longInflight: u64, latestBw: u64, latestInflight: u64,
    ecn: Ecn, lossSeen: bool, growth: Growth, consumed: bool)

  /** What the congestion model is told about an ACK. */
  datatype Signal = Signal(
    rate: u64, maxBw: u64, sampled: u64, cwnd: u64, target: u64, mss: u32, appLimited: bool,
    probing: bool, probeUp: bool, roundStart: bool)

  const UNBOUNDED: u64 := U64_MAX

  predicate MoreThan(part: u64, whole: u64, percent: u32)
  { whole != 0 && part != 0 && part > Scale3(whole, percent, 100) }

  function Measured(e: Ecn): Alpha
    requires e.delivered != 0
  {
    hide Scale3;
    if e.delivered > U32_MAX then
      DivFacts(e.ce, e.delivered / 256);
      Min(e.ce / (e.delivered / 256), 256)
    else Min(Scale3(e.ce, 256, e.delivered), 256)
  }

  /** 1/16 moving average of the CE-marked fraction. */
  function Blended(e: Ecn): Ecn
  { if e.delivered == 0 then e else e.(alpha := (e.alpha * 15 + Measured(e)) / 16) }

  function Cut(alpha: Alpha): nat { alpha * 85 / 256 }

  /** Short-term bounds shrink once per loss round, outside bandwidth probing. */
  function LossCut(c: Congestion, x: Signal): Congestion
  {
    hide Scale3;
    var bw := if c.shortBw == UNBOUNDED then x.maxBw else c.shortBw;
    var inflight := if c.shortInflight == UNBOUNDED then x.cwnd else c.shortInflight;
    c.(shortBw := Max(1, Max(c.latestBw, Scale3(bw, 7, 10))),
        shortInflight := Max(c.latestInflight, Scale3(inflight, 7, 10)))
  }

  function EcnCut(c: Congestion, x: Signal): Congestion
  {
    hide Scale3;
    var inflight := if c.shortInflight == UNBOUNDED then x.cwnd else c.shortInflight;
    c.(shortInflight := Min(inflight, Scale3(inflight, 256 - Cut(c.ecn.alpha), 256)))
  }

  function RoundFinished(c0: Congestion, x: Signal, eligible: bool): Congestion
  {
    var c := c0.(ecn := Blended(c0.ecn));
    var d := if !x.probing && c.lossSeen then LossCut(c, x) else c;
    var e := if !x.probing && c.ecn.seen && eligible then EcnCut(d, x) else d;
    e.(lossSeen := false, ecn := Ecn(0, 0, e.ecn.alpha, false), latestBw := x.rate, latestInflight := x.sampled)
  }

  function Pow2(n: nat): (p: nat)
    ensures p >= 1
  { if n == 0 then 1 else 2 * Pow2(n - 1) }

  /** ProbeBW_UP raises an existing long-term bound, ever faster. */
  function Raised(c: Congestion, x: Signal, acked: u32, cwndLimited: bool): Congestion
    requires x.mss > 0
  {
    if !x.probeUp || !cwndLimited || c.longInflight == UNBOUNDED || x.cwnd < c.longInflight then c
    else
      var perInc := if c.growth.perInc == 0 then Max(x.mss, x.cwnd) else c.growth.perInc;
      var total := SatAdd(c.growth.acked, acked);
      DivFacts(total, perInc);
      var long := SatAdd(c.longInflight, SatMul(total / perInc, x.mss));
      if !x.roundStart then c.(longInflight := long, growth := Growth(total % perInc, perInc, c.growth.rounds))
      else
        var shift := Pow2(Min(c.growth.rounds, 30));
        DivFacts(x.cwnd, shift);
        c.(longInflight := long,
           growth := Growth(total % perInc, Max(x.mss, x.cwnd / shift),
                            if c.growth.rounds < 30 then c.growth.rounds + 1 else c.growth.rounds))
  }

  predicate CongestionRejects(x: Signal, a: Ack)
  {
    || x.mss == 0 || x.cwnd == 0 || a.ce > a.acked || (!a.flags.ecnEligible && a.ce != 0) || (x.probeUp && !x.probing)
  }

  /** The round's evidence so far. */
  function Gathered(c: Congestion, x: Signal, a: Ack): Congestion
  {
    c.(latestBw := Max(c.latestBw, x.rate), latestInflight := Max(c.latestInflight, x.sampled),
       lossSeen := c.lossSeen || a.lost != 0,
       ecn := Ecn(if a.flags.ecnEligible then SatAdd(c.ecn.delivered, a.acked) else c.ecn.delivered,
                  if a.flags.ecnEligible then SatAdd(c.ecn.ce, a.ce) else c.ecn.ce,
                  c.ecn.alpha, c.ecn.seen || a.ce != 0))
  }

  /** Excess loss or CE marking in a sample taken while probing. */
  predicate Excess(c: Congestion, a: Ack)
  {
    && a.flags.probeSample && !c.consumed
    && (MoreThan(a.lost, a.txInflight, 2) || (a.flags.ecnEligible && MoreThan(a.ce, a.acked, 50)))
  }

  function Probed(c: Congestion, x: Signal, a: Ack): Congestion
    requires x.mss > 0
  {
    hide Scale3;
    if !a.flags.probeSample || c.consumed then c
    else if Excess(c, a) then
      c.(consumed := true,
         longInflight := if x.appLimited then c.longInflight else Max(a.txInflight, Scale3(x.target, 7, 10)))
    else if c.longInflight != UNBOUNDED then
      Raised(c.(longInflight := Max(c.longInflight, a.txInflight)), x, a.acked, a.flags.cwndLimited)
    else c
  }

  /** `tcp_shift_bbr3_congestion_on_ack` when it does not reject. */
  function Congested(c: Congestion, x: Signal, a: Ack): Congestion
    requires x.mss > 0
  {
    var d := Probed(Gathered(c, x, a), x, a);
    if a.flags.roundEnd then RoundFinished(d, x, a.flags.ecnEligible) else d
  }

  predicate Bounded(p: Phase) { p == Drain || p == Down || p == Cruise || p == ProbeRTT }

  function RateCap(c: Congestion, p: Phase, maxBw: u64): u64 { if Bounded(p) then Min(maxBw, c.shortBw) else maxBw }

  function CwndCap(c: Congestion, p: Phase, mss: u32): u64
  {
    if mss == 0 then 0
    else if p == Startup then U64_MAX
    else
      var long := if p == Cruise || p == ProbeRTT then WithHeadroom(c.longInflight, mss) else c.longInflight;
      Max(if Bounded(p) then Min(long, c.shortInflight) else long, mss * 4)
  }

  // -------------------------------------------------------------------------- ProbeBW scheduler

  datatype AckPhase = AcksInit | AcksRefilling | AcksStarting | AcksFeedback | AcksStopping

  datatype Probe = Probe(
    stamp: u64, next: u64, upBw: u64, wait: u64, random: bv32, rounds: u32, stagnant: u32, upRounds: u32,
    ackPhase: AckPhase, marks: Marks)
  datatype Marks = Marks(initialized: bool, tooHigh: bool, precautionary: bool, sample: bool, pending: bool)

  const WAIT_BASE: u64 := 2_000_000_000
  const WAIT_JITTER := 1_000_000_000
  const RENO_MAX_ROUNDS := 63

  /** xorshift32. */
  function Draw(v: bv32): bv32
  {
    var a := v ^ (v << 13);
    var b := a ^ (a >> 17);
    b ^ (b << 5)
  }

  function Coin(v: bv32): u32 { if v & 1 == 0 then 0 else 1 }
  function Jitter(v: bv32): (j: u32)
    ensures j < WAIT_JITTER
  { (v as int) % WAIT_JITTER }

  function DownEntered(p: Probe, now: u64, delivered: u64): Probe
  {
    var first := Draw(p.random);
    var second := Draw(first);
    p.(rounds := Coin(first), wait := WAIT_BASE + Jitter(second), random := second, stamp := now, next := delivered,
       ackPhase := AcksStopping, marks := p.marks.(sample := false))
  }

  function RefillEntered(p: Probe, delivered: u64): Probe
  {
    p.(upRounds := 0, stagnant := 0, next := delivered, ackPhase := AcksRefilling,
        marks := p.marks.(precautionary := false))
  }

  function UpEntered(p: Probe, s: Rate): Probe
  {
    p.(ackPhase := AcksStarting, stagnant := 0, upBw := s.rate, upRounds := 1, next := s.delivered,
        marks := p.marks.(sample := true))
  }

  predicate EnterRejects(p: Probe, m: Model, now: u64, seed: bv32)
  {
    now == 0 || seed == 0 || !m.pipe.full || m.bw.max == 0 || !m.rtts.hasMin || m.rtts.min == 0 || p.marks.initialized
  }

  /** `tcp_shift_bbr3_probe_enter` when it does not reject; the phase becomes DOWN. */
  function Entered(now: u64, delivered: u64, seed: bv32): Probe
  {
    DownEntered(Probe(0, 0, 0, 0, seed, 0, 0, 0, AcksInit, Marks(true, false, false, false, false)), now, delivered)
  }

  predicate NewRound(p: Probe, s: Rate) { s.delivered != 0 && s.prior >= p.next }

  function Counted(p: Probe, s: Rate): Probe
  { if NewRound(p, s) then p.(next := s.delivered, rounds := if p.rounds < U32_MAX then p.rounds + 1 else p.rounds)
      else p }

  function RenoWait(m: Model, cwnd: u32, mss: u32): u32
    requires mss > 0
  {
    hide BdpCeil3;
    var target := Min(BdpCeil3(m.bw.max, m.rtts.min), cwnd);
    DivFacts(target, mss);
    Min(CeilDiv(target, mss), RENO_MAX_ROUNDS)
  }

  /** The ACK as the scheduler sees it. */
  datatype Seen = Seen(s: Rate, now: u64, longInflight: u64, inflight: u32, cwnd: u32, mss: u32, cwndLimited: bool,
      excess: bool)

  predicate TimeToProbe(p: Probe, m: Model, x: Seen)
    requires x.mss > 0
  { Elapsed(x.now, p.stamp, p.wait) || p.rounds >= RenoWait(m, x.cwnd, x.mss) }

  predicate TimeToCruise(m: Model, x: Seen)
  {
    hide BdpCeil3;
    x.inflight <= BdpCeil3(m.bw.max, m.rtts.min) && x.inflight <= WithHeadroom(x.longInflight, x.mss)
  }

  /** Watching for the end of growth while probing up. */
  function Plateaued(p: Probe, x: Seen, newRound: bool): Probe
  {
    if !x.s.valid || x.s.appLimited || x.s.rate == 0 then p
    else if p.upBw == 0 || x.s.rate >= Threshold(p.upBw) then p.(upBw := x.s.rate, stagnant := 0)
    else if newRound && p.stagnant < U32_MAX then p.(stagnant := p.stagnant + 1)
    else p
  }

  predicate AtPlateau(p: Probe, x: Seen, newRound: bool)
  { x.s.valid && !x.s.appLimited && x.s.rate != 0 && Plateaued(p, x, newRound).stagnant >= FULL_BW_ROUNDS }

  predicate ProbeRejects(p: Probe, m: Model, x: Seen)
  {
    || !p.marks.initialized || !m.pipe.full || x.now == 0 || x.now < p.stamp || x.mss == 0 || x.cwnd == 0
    || x.s.prior > x.s.delivered || !InProbeBW(m.phase)
  }

  /** The state of the scheduler after one ACK: probe, phase and bandwidth cycle. */
  datatype Moved = Moved(p: Probe, phase: Phase, bw: Bw, ok: bool)

  /** The first round after probing: age the bandwidth filter, and probe again at
      once if the last probe stopped only as a precaution. */
  function Stopped(p: Probe, m: Model, x: Seen): Moved
  {
    var q := p.(ackPhase := AcksInit);
    var ages := p.marks.pending && !x.s.appLimited && x.s.valid;
    if ages && m.bw.cycle == U32_MAX then Moved(q, Down, m.bw, false)
    else
      var bw := if ages then NextCycle(m.bw) else m.bw;
      var r := q.(marks := q.marks.(pending := false));
      if r.marks.precautionary && !r.marks.tooHigh then Moved(RefillEntered(r, x.s.delivered), Refill, bw, true)
      else Waiting(r, m.(bw := bw), x)
  }

  /** DOWN: probe when due, otherwise cruise once drained. */
  function Waiting(p: Probe, m: Model, x: Seen): Moved
  {
    if x.mss > 0 && TimeToProbe(p, m, x) then Moved(RefillEntered(p, x.s.delivered), Refill, m.bw, true)
    else Moved(p, if TimeToCruise(m, x) then Cruise else Down, m.bw, true)
  }

  function Stop(p: Probe, x: Seen, tooHigh: bool, precautionary: bool): Probe
  { DownEntered(p.(marks := p.marks.(tooHigh := tooHigh, precautionary := precautionary, pending := true)), x.now,
      x.s.delivered) }

  function Probing(p0: Probe, m: Model, x: Seen, newRound: bool): Moved
  {
    var p := if newRound && p0.ackPhase == AcksStarting then p0.(ackPhase := AcksFeedback) else p0;
    if x.excess then Moved(Stop(p, x, true, p.marks.precautionary), Down, m.bw, true)
    else if p.marks.tooHigh && x.longInflight != UNBOUNDED && x.inflight >= x.longInflight
    then Moved(Stop(p, x, false, true), Down, m.bw, true)
    else if x.cwndLimited && x.longInflight != UNBOUNDED && x.cwnd >= x.longInflight
    then Moved(p.(upBw := x.s.rate, stagnant := 0), Up, m.bw, true)
    else if AtPlateau(p, x, newRound)
        then Moved(Stop(Plateaued(p, x, newRound), x, false, p.marks.precautionary), Down, m.bw, true)
    else Moved(Plateaued(p, x, newRound), Up, m.bw, true)
  }

  /** `tcp_shift_bbr3_probe_on_ack` when its arguments are acceptable. */
  function Scheduled(p: Probe, m: Model, x: Seen): Moved
  {
    if x.s.delivered == x.s.prior then Moved(p, m.phase, m.bw, true) else
    var newRound, q := NewRound(p, x.s), Counted(p, x.s);
    match m.phase
    case Down => if newRound && q.ackPhase == AcksStopping then Stopped(q, m, x) else Waiting(q, m, x)
    case Cruise => if x.mss > 0 && TimeToProbe(q, m, x)
        then Moved(RefillEntered(q, x.s.delivered), Refill, m.bw, true) else Moved(q, Cruise, m.bw, true)
    case Refill => if newRound then Moved(UpEntered(q, x.s), Up, m.bw, true) else Moved(q, Refill, m.bw, true)
    case Up => Probing(q, m, x, newRound)
    case _ => Moved(q, m.phase, m.bw, false)
  }

  // ----------------------------------------------------------------------------- controller

  /** ACK aggregation. */
  datatype Agg = Agg(ring: Ring, stamp: u64, delivered: u64, extra: u64)
  /** The ProbeRTT hold. */
  datatype Hold = Hold(done: u64, roundDelivered: u64, roundDone: bool, started: bool)
  datatype Conf = Conf(initialCwnd: u32, mss: u32, seed: bv32)
  datatype State = State(
    model: Model, probe: Probe, cong: Congestion, agg: Agg, hold: Hold, conf: Conf,
    cwnd: u32, priorCwnd: u32, drainStart: nat, pacing: u64)

  datatype Policy = Policy(pacing: u64, maxInflight: u64, extra: u64, cwnd: u32, quantum: u32, markAppLimited: bool,
      phase: Phase)
  datatype Result = Rejected(s: State) | Accepted(s: State, policy: Policy)

  const PROBE_RTT_DURATION: u64 := 200_000_000

  function Cap32(v: u64): u32 { Min(v, U32_MAX) }

  predicate ValidInit(initialCwnd: u32, mss: u32, seed: bv32, now: u64)
  { mss != 0 && seed != 0 && now != 0 && mss <= U32_MAX / 4 && initialCwnd >= 4 * mss }

  const FRESH_CONGESTION := Congestion(UNBOUNDED, UNBOUNDED, UNBOUNDED, 0, 0, Ecn(0, 0, 256, false), false,
      Growth(0, 0, 0), false)
  const FRESH_MODEL := Model(Bw(0, 0, 0, 0), Rtts(0, 0, 0, 0, false, false, false), Pipe(0, 0, false),
      Rounds(0, 0, false), 0, false, Startup)
  const FRESH_PROBE := Probe(0, 0, 0, 0, 0, 0, 0, 0, AcksInit, Marks(false, false, false, false, false))

  function Initial(initialCwnd: u32, mss: u32, seed: bv32, now: u64): State
  {
    State(FRESH_MODEL, FRESH_PROBE, FRESH_CONGESTION, Agg(EMPTY_RING, now, 0, 0), Hold(0, 0, false, false),
          Conf(initialCwnd, mss, seed), initialCwnd, 0, 0, Scale3(SatMul(initialCwnd, 1000), 277, 100))
  }

  function CappedRate(s: State): u64 { RateCap(s.cong, s.model.phase, s.model.bw.max) }

  /** The inflight the model asks for in its phase. */
  function Inflight(s: State): u64
  {
    hide BdpFloor, Scale3;
    if !s.model.rtts.hasMin || CappedRate(s) == 0 then s.conf.initialCwnd else
    var gain := CwndGain(s.model.phase);
    var base := SatAdd(Scale3(BdpFloor(CappedRate(s), s.model.rtts.min), gain.0, gain.1), s.agg.extra);
    var floored := Max(base, s.conf.mss * 4);
    if s.model.phase == Up then SatAdd(floored, s.conf.mss * 2) else floored
  }

  function RttTarget(s: State): u64
  {
    hide BdpFloor;
    Max(BdpFloor(s.model.bw.max, s.model.rtts.min) / 2, s.conf.mss * 4)
  }

  /** Bytes acknowledged beyond what the rate explains since the interval began. */
  function Beyond(g: Agg, now: u64, acked: u32, bw: u64, cwnd: u32): (Agg, u64)
    requires g.stamp <= now
  {
    hide BdpFloor;
    var expected := BdpFloor(bw, now - g.stamp);
    if g.delivered <= expected then (g.(delivered := acked, stamp := now), Min(acked, cwnd))
    else
      var total := SatAdd(g.delivered, acked);
      (g.(delivered := total), Min(total - expected, cwnd))
  }

  function Aggregated(s: State, a: Ack): Agg
    requires s.agg.stamp <= a.now
  {
    hide BdpFloor;
    var (g, extra) := Beyond(s.agg, a.now, a.acked, CappedRate(s), s.cwnd);
    var ring := Noted(g.ring, s.model.rounds.count, extra);
    g.(ring := ring, extra := Recent(ring, s.model.rounds.count, if s.model.pipe.full then 10 else 1, 10))
  }

  /** Startup ends when the pipe is full, Drain when the queue is gone or three
      rounds have passed. */
  function Drained(s0: State, a: Ack): State
  {
    hide BdpFloor;
    var s := if s0.model.phase == Startup && s0.model.pipe.full
             then s0.(model := s0.model.(phase := Drain), drainStart := s0.model.rounds.count) else s0;
    if s.model.phase != Drain || !s.model.rtts.hasMin then s
    else if a.inflight <= BdpFloor(s.model.bw.max, s.model.rtts.min) || s.model.rounds.count > s.drainStart + 3 then
      if EnterRejects(s.probe, s.model, a.now, s.conf.seed) then s
      else s.(model := s.model.(phase := Down), probe := Entered(a.now, a.rate.delivered, s.conf.seed))
    else s
  }

  function SeenBy(s: State, a: Ack, excess: bool): Seen
  { Seen(a.rate, a.now, s.cong.longInflight, a.inflight, s.cwnd, s.conf.mss, a.flags.cwndLimited, excess) }

  function ResetShort(c: Congestion): Congestion { c.(shortBw := UNBOUNDED, shortInflight := UNBOUNDED) }
  function BeganProbe(c: Congestion): Congestion { ResetShort(c).(consumed := false, growth := Growth(0, 0, 0)) }

  /** One ACK of ProbeBW; starting a REFILL resets the short-term bounds. */
  function ProbeStep(s: State, a: Ack, excess: bool): State
  {
    if ProbeRejects(s.probe, s.model, SeenBy(s, a, excess)) then s else
    var v := Scheduled(s.probe, s.model, SeenBy(s, a, excess));
    s.(probe := v.p, model := s.model.(phase := v.phase, bw := v.bw),
       cong := if s.model.phase != Refill && v.phase == Refill then BeganProbe(s.cong) else s.cong)
  }

  function HoldEntered(s: State, a: Ack): State
  {
    if s.model.phase != ProbeRTT && s.model.rtts.expired && !a.flags.idleRestart && s.model.rtts.hasMin
    then s.(priorCwnd := s.cwnd, model := s.model.(phase := ProbeRTT), hold := Hold(0, a.rate.delivered, false, true))
    else s
  }

  /** Leaving ProbeRTT: back to Startup, or to ProbeBW through a fresh scheduler. */
  function Released(s0: State, a: Ack): State
  {
    var s := s0.(model := s0.model.(rtts := s0.model.rtts.(probeStamp := a.now, expired := false)),
                 hold := s0.hold.(started := false), cong := ResetShort(s0.cong), cwnd := Max(s0.cwnd, s0.priorCwnd));
    if !s.model.pipe.full then s.(model := s.model.(phase := Startup)) else
    var idle := s.(probe := s.probe.(marks := s.probe.marks.(initialized := false)));
    if EnterRejects(idle.probe, idle.model, a.now, s.conf.seed) then idle
    else idle.(probe := Entered(a.now, a.rate.delivered, s.conf.seed), model := idle.model.(phase := Cruise))
  }

  function Held(s: State, a: Ack): State
  {
    if s.model.phase != ProbeRTT then s
    else if s.hold.done == 0 then
      if a.inflight <= RttTarget(s)
          then s.(hold := s.hold.(done := SatAdd(a.now, PROBE_RTT_DURATION), roundDelivered := a.rate.delivered,
              roundDone := false))
      else s
    else
      var done := s.hold.roundDone || (a.rate.prior >= s.hold.roundDelivered && a.rate.delivered > a.rate.prior);
      var t := s.(hold := s.hold.(roundDone := done));
      if !done || a.now <= s.hold.done then t else Released(t, a)
  }

  /** `advance_phase`: the scheduler runs only if ProbeBW was already on when the
      ACK arrived. */
  function Advanced(s: State, a: Ack, excess: bool): State
  {
    var d := Drained(s, a);
    var p := if InProbeBW(s.model.phase) then ProbeStep(d, a, excess) else d;
    Held(HoldEntered(p, a), a)
  }

  function NewPacing(s: State): u64
  {
    hide Scale3;
    var gain := PacingGain(s.model.phase);
    var desired := Scale3(Scale3(CappedRate(s), gain.0, gain.1), 99, 100);
    if desired != 0 && (s.model.pipe.full || desired > s.pacing) then desired else s.pacing
  }

  function NewCwnd(s: State, a: Ack): u32
  {
    hide Inflight, RttTarget, CwndCap;
    var grown := SatAdd(s.cwnd, a.acked);
    var base := if s.model.pipe.full then Min(grown, Inflight(s))
                else if s.cwnd < Inflight(s) || a.rate.delivered < s.conf.initialCwnd then grown else s.cwnd;
    var floored := Max(base, s.conf.mss * 4);
    var held := if s.model.phase == ProbeRTT then Min(floored, RttTarget(s)) else floored;
    Cap32(Max(Min(held, CwndCap(s.cong, s.model.phase, s.conf.mss)), s.conf.mss * 4))
  }

  function Concluded(s: State, a: Ack): Result
  {
    hide Inflight, NewPacing, NewCwnd;
    var pacing, cwnd := NewPacing(s), NewCwnd(s, a);
    Accepted(s.(pacing := pacing, cwnd := cwnd),
             Policy(pacing, Inflight(s), s.agg.extra, cwnd, Cap32(Max(Min(pacing / 1000, 65536), s.conf.mss * 2)),
                    s.model.phase == ProbeRTT, s.model.phase))
  }

  function SignalOf(s: State, phase: Phase, a: Ack): Signal
  {
    hide Inflight;
    Signal(a.rate.rate, s.model.bw.max, a.rate.sampled, s.cwnd, Inflight(s), s.conf.mss, a.rate.appLimited,
           phase == Startup || phase == Refill || phase == Up, phase == Up, s.model.rounds.start)
  }

  /** The ACKs the controller turns away before touching anything. */
  predicate Malformed(s: State, a: Ack)
  {
    || a.now == 0 || a.now < s.agg.stamp || a.now < s.model.lastUpdate
    || (a.lost != 0 && !a.flags.validatedLoss) || (a.ce != 0 && !a.flags.ecnEligible) || a.ce > a.acked
    || a.rate.prior > a.rate.delivered || !a.rate.valid
  }

  /** `tcp_shift_bbr3_controller_on_ack`. */
  function AckStep(s: State, a: Ack): Result
  {
    if Malformed(s, a) || ModelRejects(s.model, a.rate, a.now) then Rejected(s) else
    var m := s.(model := Estimated(s.model, a.rate, a.now));
    var x := SignalOf(m, s.model.phase, a);
    if CongestionRejects(x, a) then Rejected(m) else
    var gathered := Gathered(s.cong, x, a);
    var c := m.(cong := Congested(s.cong, x, a));
    var g := c.(agg := Aggregated(c, a));
    Concluded(Advanced(g, a, Excess(gathered, a)), a)
  }
}
