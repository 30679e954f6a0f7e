/** Compact BBR: estimators, the four-mode machine, recovery and the controller's
    events, as functions from one state to the next. */
module BbrModel {
  import opened Words
  import opened Scaling
  import opened RoundRing

  datatype Transport = Transport(mss: u32, inflight: u32, limit: u32)
  datatype Policy = Policy(cwnd: u32, ssthresh: u32, pacing: u64)
  datatype Rate = Rate(
    valid: bool, appLimited: bool, rttValid: bool, rate: u64, rtt: u64,
    priorDelivered: u64, delivered: u64, priorInflight: u32)
  datatype Ack = Ack(acked: u32, time: u64, srtt: u64, rate: Rate)
  datatype Mode = Startup | Drain | ProbeBW | ProbeRTT

  /** The parts of `struct tcp_shift_bbr_model`: packet-timed rounds, the full-pipe
      detector and the two windowed RTT minima. */
  datatype Rounds = Rounds(next: u64, count: nat, start: bool)
  datatype Pipe = Pipe(bw: u64, count: nat, now: bool, full: bool)
  datatype Rtts = Rtts(
    min: u64, minStamp: u64, probe: u64, probeStamp: u64, hasMin: bool, hasProbe: bool,
    minExpired: bool, probeExpired: bool)

  /** The whole struct, without its sample counters. */
  datatype Model = Model(bw: Filter, rtts: Rtts, pipe: Pipe, rounds: Rounds, lastUpdate: u64, hasUpdate: bool,
      mode: Mode)

  datatype Probe = Probe(
    cycleStart: u64, doneStamp: u64, priorCwnd: u32, cycleIndex: nat, seed: nat, cycleStarted: bool, roundDone: bool)

  datatype Recovery = Recovery(priorCwnd: u32, inRecovery: bool, conservation: bool)

  datatype State = State(
    model: Model, probe: Probe, recovery: Recovery, initialCwnd: u32, cwnd: u32,
    pendingLoss: u32, delivered: u64, pacing: u64, seenRtt: bool)

  /** The state an event leaves behind and whether it was accepted; loss notes
      outside recovery publish nothing. */
  datatype Result = Rejected(s: State) | Accepted(s: State, policy: Policy) | Quiet(s: State)
  datatype Decision = Refused | Given(policy: Policy)

  const PROBE_RTT_INTERVAL := 5_000_000_000
  const MIN_RTT_FILTER := 10_000_000_000
  const PROBE_RTT_DURATION: u64 := 200_000_000
  const INITIAL_RTT: u64 := 1_000_000
  const FULL_BW_ROUNDS := 3

  predicate ValidTransport(t: Transport) { t.mss != 0 && t.limit >= t.mss }

  function Minimum(t: Transport): u32 { Min(t.mss * 4, t.limit) }

  // -------------------------------------------------------------------------- estimators

  function RoundUpdated(r: Rounds, s: Rate): Rounds
  {
    if s.delivered == 0 || s.delivered < s.priorDelivered || s.priorDelivered < r.next then r.(start := false)
    else Rounds(s.delivered, r.count + 1, true)
  }

  /** Samples without a rate are ignored, and application-limited ones unless
      they raise the estimate. */
  predicate Admitted(s: Rate, bw: u64) { s.valid && s.rate != 0 && !(s.appLimited && s.rate < bw) }

  function BwUpdated(f: Filter, round: nat, s: Rate): Filter
  { if Admitted(s, f.max) then Admit(f, round, s.rate) else f }

  function FullBwThreshold(fullBw: u64): u64 { SatAdd(fullBw, CeilDiv(fullBw, 4)) }

  /** Three rounds without 25 per cent growth mean the pipe is full. */
  function PipeChecked(p: Pipe, mode: Mode, roundStart: bool, bw: u64, s: Rate): Pipe
  {
    if mode != Startup || p.full || !roundStart || !s.valid || s.rate == 0 || s.appLimited then p.(now := false)
    else if p.bw == 0 || bw >= FullBwThreshold(p.bw) then Pipe(bw, 0, false, false)
    else if p.count + 1 >= FULL_BW_ROUNDS then Pipe(p.bw, p.count + 1, true, true)
    else Pipe(p.bw, p.count + 1, false, false)
  }

  predicate Elapsed(now: u64, stamp: u64, interval: u64) { now > stamp && now - stamp > interval }

  /** The five-second minimum. */
  function ProbeMinUpdated(r: Rtts, rtt: u64, now: u64): Rtts
  {
    var expired := r.hasProbe && Elapsed(now, r.probeStamp, PROBE_RTT_INTERVAL);
    if !r.hasProbe || rtt < r.probe || expired
    then r.(probe := rtt, probeStamp := now, hasProbe := true, probeExpired := expired)
    else r.(probeExpired := expired)
  }

  /** The ten-second minimum, fed by the five-second one. */
  function MinRttUpdated(r: Rtts, now: u64): Rtts
  {
    var expired := r.hasMin && Elapsed(now, r.minStamp, MIN_RTT_FILTER);
    if !r.hasMin || r.probe < r.min || expired
    then r.(min := r.probe, minStamp := r.probeStamp, hasMin := true, minExpired := expired)
    else r.(minExpired := expired)
  }

  function RttUpdated(r: Rtts, s: Rate, now: u64): Rtts
  {
    if !s.rttValid || s.rtt == 0 then r.(probeExpired := false, minExpired := false)
    else MinRttUpdated(ProbeMinUpdated(r, s.rtt, now), now)
  }

  /** `tcp_shift_bbr_model_on_ack` once the clock is known not to run backwards. */
  function Estimated(m: Model, s: Rate, now: u64): Model
  {
    var rounds := RoundUpdated(m.rounds, s);
    var bw := BwUpdated(m.bw, rounds.count, s);
    Model(bw, RttUpdated(m.rtts, s, now), PipeChecked(m.pipe, m.mode, rounds.start, bw.max, s), rounds, now, true,
        m.mode)
  }

  // ----------------------------------------------------------------------- rates, targets

  /** A pacing gain over 256 with the one per cent margin. */
  function Paced(bw: u64, gain: nat): u64
    requires gain <= 739
  { ScaleFloor(bw, gain * 99, 25600) }

  function Gain(p: Probe): nat { if p.cycleIndex == 0 then 320 else if p.cycleIndex == 1 then 192 else 256 }

  function InitialRate(cwnd: u32, srtt: u64): u64
  {
    if cwnd == 0 then 0
    else
      var rtt := if srtt != 0 then srtt else INITIAL_RTT;
      DivFacts(cwnd * NS_PER_SEC, rtt);
      var base := cwnd * NS_PER_SEC / rtt;
      Paced(if base == 0 then 1 else base, 739)
  }

  function StartupTarget(bw: u64, rtt: u64, t: Transport, initial: u32): u32
  {
    hide BdpCeil, ScaleCeil;
    if t.mss == 0 || t.limit == 0 then 0
    else
      var target := if bw == 0 || rtt == 0 then initial else ScaleCeil(BdpCeil(bw, rtt), 739, 256);
      Min(Max(target, Minimum(t)), t.limit)
  }

  function RttOf(m: Model): u64 { if m.rtts.hasMin then m.rtts.min else 0 }

  function Grown(cwnd: u32, acked: u32, limit: u32): u32 { Min(cwnd + acked, limit) }

  predicate BadWindow(cwnd: u32, t: Transport) { cwnd == 0 || cwnd > t.limit }

  // ------------------------------------------------------------------------ mode policies

  function StartupPolicy(m: Model, t: Transport, ack: Ack, initial: u32, cwnd: u32, pacing: u64): Decision
  {
    hide Paced;
    if initial == 0 || initial > t.limit || BadWindow(cwnd, t) then Refused else
    var target := StartupTarget(m.bw.max, RttOf(m), t, initial);
    if target == 0 then Refused else
    var grown :=
      if ack.acked == 0 then cwnd
      else if m.pipe.full then Min(Grown(cwnd, ack.acked, t.limit), target)
      else if cwnd < target || ack.rate.delivered < initial then Grown(cwnd, ack.acked, t.limit)
      else cwnd;
    Given(Policy(Min(Max(grown, Minimum(t)), t.limit), t.limit, Max(Paced(m.bw.max, 739), pacing)))
  }

  function DrainPolicy(m: Model, t: Transport, ack: Ack, cwnd: u32): Decision
  {
    hide Paced, BdpCeil, StartupTarget;
    if !m.pipe.full || m.bw.max == 0 || BadWindow(cwnd, t) then Refused else
    var target := StartupTarget(m.bw.max, RttOf(m), t, Minimum(t));
    if target == 0 then Refused else
    var grown := if ack.acked == 0 then cwnd else Min(Grown(cwnd, ack.acked, t.limit), target);
    var drained := if m.rtts.hasMin && m.rtts.min != 0 then BdpCeil(m.bw.max, m.rtts.min) else Minimum(t);
    Given(Policy(Min(Max(grown, Minimum(t)), t.limit), Min(Max(drained, Minimum(t)), t.limit), Paced(m.bw.max, 88)))
  }

  function ProbeBwPolicy(m: Model, p: Probe, t: Transport, ack: Ack, cwnd: u32): Decision
  {
    hide Paced, BdpCeil, ScaleCeil;
    if !m.pipe.full || m.bw.max == 0 || !m.rtts.hasMin || m.rtts.min == 0 || BadWindow(cwnd, t) then Refused else
    var bdp := BdpCeil(m.bw.max, m.rtts.min);
    var target := Min(Max(ScaleCeil(bdp, 512, 256), Minimum(t)), t.limit);
    var grown := if ack.acked == 0 then cwnd else Min(Grown(cwnd, ack.acked, t.limit), target);
    Given(Policy(Max(grown, Minimum(t)), Min(Max(bdp, Minimum(t)), t.limit), Paced(m.bw.max, Gain(p))))
  }

  function ProbeRttPolicy(m: Model, t: Transport): Decision
  { Given(Policy(Minimum(t), Minimum(t), Paced(m.bw.max, 256))) }

  function ModePolicy(s: State, t: Transport, ack: Ack, cwnd: u32): Decision
  {
    match s.model.mode
    case Startup => StartupPolicy(s.model, t, ack, s.initialCwnd, cwnd, s.pacing)
    case Drain => DrainPolicy(s.model, t, ack, cwnd)
    case ProbeBW => ProbeBwPolicy(s.model, s.probe, t, ack, cwnd)
    case ProbeRTT => ProbeRttPolicy(s.model, t)
  }

  // --------------------------------------------------------------------- mode transitions

  function DrainChecked(m: Model, s: Rate): Model
  {
    hide BdpCeil;
    var n := if m.mode == Startup && m.pipe.full then m.(mode := Drain) else m;
    if n.mode != Drain || !s.valid || n.bw.max == 0 || !n.rtts.hasMin || n.rtts.min == 0 then n
    else
      var target := BdpCeil(n.bw.max, n.rtts.min);
      if target != 0 && s.priorInflight <= target then n.(mode := ProbeBW) else n
  }

  function ResetCycle(p: Probe, now: u64): Probe
  { p.(cycleIndex := (8 - p.seed % 7) % 8, cycleStart := now, cycleStarted := true) }

  /** Entering ProbeRTT when the minimum RTT has expired. */
  function ProbeRttEntered(m: Model, p: Probe, cwnd: u32): (Model, Probe)
  {
    if m.mode != ProbeRTT && m.rtts.minExpired
    then (m.(mode := ProbeRTT),
        p.(priorCwnd := Max(p.priorCwnd, cwnd), doneStamp := 0, roundDone := false, cycleStarted := false))
    else (m, p)
  }

  /** Staying in it until 200 ms and a round have passed at the minimum window. */
  function ProbeRttHeld(m: Model, p: Probe, t: Transport, s: Rate, now: u64): (Model, Probe, bool)
  {
    if m.mode != ProbeRTT then (m, p, false)
    else if p.doneStamp == 0 then
      if s.priorInflight <= Minimum(t)
      then (m.(rounds := m.rounds.(next := s.delivered)),
          p.(doneStamp := SatAdd(now, PROBE_RTT_DURATION), roundDone := false), false)
      else (m, p, false)
    else if !(p.roundDone || m.rounds.start) || now < p.doneStamp
    then (m, p.(roundDone := p.roundDone || m.rounds.start), false)
    else
      var n, r := m.(rtts := m.rtts.(minStamp := now, minExpired := false)), p.(doneStamp := 0, roundDone := false);
      if m.pipe.full then (n.(mode := ProbeBW), ResetCycle(r, now), true)
      else (n.(mode := Startup), r.(cycleStarted := false), true)
  }

  /** `tcp_shift_bbr_probe_rtt_update`; the flag tells the caller to restore its window. */
  function ProbeRttUpdated(m: Model, p: Probe, t: Transport, s: Rate, cwnd: u32, now: u64): (Model, Probe, bool)
  {
    var (n, q) := ProbeRttEntered(m, p, cwnd);
    ProbeRttHeld(n, q, t, s, now)
  }

  function RestoredCwnd(p: Probe, cwnd: u32, limit: u32): u32 { Min(Max(cwnd, p.priorCwnd), limit) }

  /** Whether the current phase of the eight-phase cycle is over. */
  predicate Advances(m: Model, p: Probe, s: Rate, lost: u32, now: u64)
    requires p.cycleStart <= now
  {
    hide BdpCeil, ScaleCeil;
    var full, bdp := now - p.cycleStart >= m.rtts.min, BdpCeil(m.bw.max, m.rtts.min);
    if bdp == 0 then false
    else if Gain(p) > 256 then full && (lost != 0 || s.priorInflight >= ScaleCeil(bdp, Gain(p), 256))
    else if Gain(p) < 256 then full || s.priorInflight <= bdp
    else full
  }

  /** `tcp_shift_bbr_probe_bw_update` in ProbeBW when the clock is after the phase start. */
  function Cycled(m: Model, p: Probe, s: Rate, lost: u32, now: u64): Probe
    requires p.cycleStarted ==> p.cycleStart <= now
  {
    if !p.cycleStarted then ResetCycle(p, now)
    else if m.bw.max == 0 || !m.rtts.hasMin || m.rtts.min == 0 then p
    else if Advances(m, p, s, lost, now) then p.(cycleIndex := (p.cycleIndex + 1) % 8, cycleStart := now)
    else p
  }

  // ---------------------------------------------------------------------------- recovery

  predicate ValidWindow(cwnd: u32, t: Transport) { ValidTransport(t) && t.mss <= cwnd <= t.limit }

  function FloorSub(value: u32, subtract: u32, floor: u32): u32
  { if value <= subtract || value - subtract < floor then floor else value - subtract }

  function AddLimit(a: u32, b: u32, limit: u32): u32 { if a >= limit || b > limit - a then limit else a + b }

  /** inflight + newly acknowledged bytes, capped, and never below one segment. */
  function Conserved(t: Transport, acked: u32): u32 { Max(AddLimit(t.inflight, acked, t.limit), t.mss) }

  function RecoveryEntered(r: Recovery, cwnd: u32): Recovery { Recovery(cwnd, true, true) }

  /** A new round ends packet conservation; until then it owns the window. */
  function RecoveryAcked(r: Recovery, roundStart: bool): Recovery
  { r.(conservation := r.conservation && !roundStart) }

  function RecoveryCwnd(r: Recovery, cwnd: u32, t: Transport, acked: u32): u32
  {
    var kept := FloorSub(cwnd, 0, t.mss);
    Min(if r.conservation then Max(kept, Conserved(t, acked)) else kept, t.limit)
  }

  // --------------------------------------------------------------------------- controller

  function PublishedPolicy(s: State, t: Transport): Policy { Policy(s.cwnd, t.limit, s.pacing) }

  const FRESH := Model(EMPTY, Rtts(0, 0, 0, 0, false, false, false, false), Pipe(0, 0, false, false),
      Rounds(0, 0, false), 0, false, Startup)

  function Initial(initialCwnd: u32, seed: u32): State
  {
    State(FRESH,
          Probe(0, 0, 0, 0, seed % 7, false, false), Recovery(0, false, false),
          initialCwnd, initialCwnd, 0, 0, InitialRate(initialCwnd, 0), false)
  }

  predicate ValidInit(t: Transport, initialCwnd: u32) { ValidTransport(t) && 0 < initialCwnd <= t.limit }

  /** The first usable smoothed RTT replaces the bootstrap pacing rate. */
  function RttSeen(s: State, ack: Ack): State
  {
    if !s.seenRtt && ack.srtt != 0 then s.(pacing := InitialRate(s.cwnd, ack.srtt), seenRtt := true) else s
  }

  /** ProbeBW cycling, then publication. */
  function CycledResult(s: State, t: Transport, ack: Ack, cwnd: u32, recoveryCwnd: u32, owned: bool): Result
  {
    if s.model.mode != ProbeBW then Published(s, t, ack, cwnd, recoveryCwnd, owned)
    else if s.probe.cycleStarted && ack.time < s.probe.cycleStart then Rejected(s)
    else Published(s.(probe := Cycled(s.model, s.probe, ack.rate, s.pendingLoss, ack.time)), t, ack, cwnd,
        recoveryCwnd, owned)
  }

  /** Publication, with packet conservation overriding the mode's window. */
  function Published(s: State, t: Transport, ack: Ack, cwnd: u32, recoveryCwnd: u32, owned: bool): Result
  {
    hide StartupPolicy, DrainPolicy, ProbeBwPolicy, ProbeRttPolicy;
    var d := ModePolicy(s, t, ack, cwnd);
    if d.Refused? || BadWindow(d.policy.cwnd, t) || d.policy.pacing == 0 then Rejected(s)
    else
      var policy := if owned then d.policy.(cwnd := recoveryCwnd) else d.policy;
      Accepted(s.(cwnd := policy.cwnd, pacing := policy.pacing, pendingLoss := 0), policy)
  }

  /** Drain and ProbeRTT transitions at the window recovery left. */
  function ModeStep(s: State, t: Transport, ack: Ack, cwnd: u32, owned: bool): Result
  {
    var m := DrainChecked(s.model, ack.rate);
    if BadWindow(cwnd, t) then Rejected(s.(model := m)) else
    var (n, p, exited) := ProbeRttUpdated(m, s.probe, t, ack.rate, cwnd, ack.time);
    var after := s.(model := n, probe := p);
    var next := if exited then RestoredCwnd(p, cwnd, t.limit) else cwnd;
    if next == 0 then Rejected(after) else CycledResult(after, t, ack, next, cwnd, owned)
  }

  function RecoveryStep(s: State, t: Transport, ack: Ack): Result
  {
    if !s.recovery.inRecovery then ModeStep(s, t, ack, s.cwnd, false)
    else if !ValidWindow(s.cwnd, t) then Rejected(s)
    else
      var r := RecoveryAcked(s.recovery, s.model.rounds.start);
      ModeStep(s.(recovery := r), t, ack, RecoveryCwnd(r, s.cwnd, t, ack.acked), r.conservation)
  }

  function Observed(s: State, ack: Ack): State
  { s.(model := Estimated(s.model, ack.rate, ack.time), delivered := Max(s.delivered, ack.rate.delivered)) }

  /** `tcp_shift_bbr_controller_on_ack`. */
  function AckStep(s: State, t: Transport, ack: Ack): Result
  {
    if ack.acked == 0 || ack.time == 0 || !ValidTransport(t) || BadWindow(s.cwnd, t) then Rejected(s) else
    var seen := RttSeen(s, ack);
    if seen.pacing == 0 && !s.seenRtt && ack.srtt != 0 then Rejected(s)
    else if seen.model.hasUpdate && ack.time < seen.model.lastUpdate then Rejected(seen)
    else RecoveryStep(Observed(seen, ack), t, ack)
  }

  function AddedLoss(pending: u32, lost: u32): u32 { Min(pending + lost, U32_MAX) }

  /** `tcp_shift_bbr_controller_recovery_enter`: the round marker moves even when
      recovery is already active and the call is rejected. */
  function EnterStep(s: State, t: Transport, acked: u32, lost: u32): Result
  {
    if lost == 0 || !ValidTransport(t) || BadWindow(s.cwnd, t) then Rejected(s) else
    var marked := s.(model := s.model.(rounds := s.model.rounds.(next := s.delivered, start := false)),
        pendingLoss := lost);
    if s.recovery.inRecovery || !ValidWindow(s.cwnd, t) then Rejected(marked)
    else
      var e := marked.(recovery := RecoveryEntered(s.recovery, s.cwnd), cwnd := Conserved(t, acked));
      Accepted(e, PublishedPolicy(e, t))
  }

  function RecoveryLossStep(s: State, t: Transport, lost: u32): Result
  {
    if !s.recovery.inRecovery || lost == 0 || !ValidWindow(s.cwnd, t) then Rejected(s) else
    var e := s.(pendingLoss := AddedLoss(s.pendingLoss, lost), cwnd := FloorSub(s.cwnd, lost, t.mss));
    Accepted(e, PublishedPolicy(e, t))
  }

  function ExitStep(s: State, t: Transport): Result
  {
    if !ValidTransport(t) || BadWindow(s.cwnd, t) || !s.recovery.inRecovery || s.recovery.priorCwnd == 0
        then Rejected(s) else
    var e := s.(cwnd := Min(Max(s.cwnd, s.recovery.priorCwnd), t.limit), pendingLoss := 0,
                recovery := s.recovery.(inRecovery := false, conservation := false));
    Accepted(e, PublishedPolicy(e, t))
  }

  function TimeoutStep(s: State, t: Transport, postInflight: u32): Result
  {
    if !ValidTransport(t) || BadWindow(s.cwnd, t) then Rejected(s) else
    var e := s.(model := s.model.(pipe := s.model.pipe.(bw := 0, now := false),
        rounds := s.model.rounds.(start := true)), pendingLoss := 0,
                recovery := Recovery(0, false, false),
                cwnd := Max(AddLimit(postInflight, t.mss, t.limit), t.mss));
    Accepted(e, PublishedPolicy(e, t))
  }

  datatype Event = AckEvent(ack: Ack, inflight: u32) | LossNote(lost: u32) | Enter(acked: u32, lost: u32, inflight: u32)
    | RecoveryLoss(lost: u32) | Exit | Timeout(postInflight: u32)

  function Step(s: State, mss: u32, limit: u32, e: Event): Result
  {
    match e
    case AckEvent(ack, inflight) => AckStep(s, Transport(mss, inflight, limit), ack)
    case LossNote(lost) => if lost == 0 then Rejected(s) else Quiet(s.(pendingLoss := AddedLoss(s.pendingLoss, lost)))
    case Enter(acked, lost, inflight) => EnterStep(s, Transport(mss, inflight, limit), acked, lost)
    case RecoveryLoss(lost) => RecoveryLossStep(s, Transport(mss, 0, limit), lost)
    case Exit => ExitStep(s, Transport(mss, 0, limit))
    case Timeout(postInflight) => TimeoutStep(s, Transport(mss, 0, limit), postInflight)
  }
}
