/** What compact BBR's estimates, modes, windows and rates mean: the minima and the
    full-pipe verdict over every run, and each published number as a formula. */
module BbrMeaning {
  import opened Words
  import opened Scaling
  import opened RoundRing
  import opened PathHistory
  import opened BbrModel
  import opened BbrRuns
  import opened BbrLaws

  // -------------------------------------------------------------- what the path taught it

  datatype Path = Path(timings: seq<Timing>, rounds: seq<Progress>)

  /** A round the full-pipe search counts. */
  predicate Counts(s: State, rate: Rate)
  {
    && s.model.mode == Startup && !s.model.pipe.full && Opens(s, rate)
    && rate.valid && rate.rate != 0 && !rate.appLimited
  }

  /** What one event adds to the history. */
  function Learned(p: Path, s: State, i: Input): Path
  {
    var after := Next(s, i).s;
    match i.event
    case AckEvent(ack, inflight) =>
      if !Passes(s, Transport(i.mss, inflight, i.limit), ack) then p else
      Path(p.timings + Sampling(ack.rate, ack.time)
             + (if s.model.mode == ProbeRTT && after.model.mode != ProbeRTT then [Renewed(ack.time)] else []),
           p.rounds + if Counts(s, ack.rate) then [Round(after.model.bw.max)] else [])
    case Timeout(_) => if Next(s, i).Accepted? then p.(rounds := p.rounds + [Restart]) else p
    case _ => p
  }

  function Sampling(rate: Rate, now: u64): seq<Timing>
  { if rate.rttValid && rate.rtt != 0 then [Timed(now, rate.rtt)] else [] }

  /** The minima are least since samples of their own; the ten-second one is the smaller. */
  ghost predicate MinimaOk(r: Rtts, h: seq<Timing>)
  {
    && r.hasProbe == r.hasMin == Sampled(h)
    && (r.hasMin ==> IsLeastAt(h, r.probe, r.probeStamp) && IsLeast(h, r.min, r.minStamp) && r.min <= r.probe)
  }

  ghost predicate PathOk(m: Model, p: Path)
  { MinimaOk(m.rtts, p.timings) && Follows(p.rounds, m.pipe.bw, m.pipe.count, m.pipe.full) }

  /** What a sample does to the minima: each is the smaller of itself and the sample,
      unless its stamp is more than five or ten seconds old; then the five-second one is
      the sample and the ten-second one follows it. Without a sample both stay. */
  lemma MinimaLaw(r: Rtts, s: Rate, now: u64, h: seq<Timing>)
    requires MinimaOk(r, h)
    ensures var r' := RttUpdated(r, s, now);
      && MinimaOk(r', h + Sampling(s, now))
      && (if s.rttValid && s.rtt != 0 then
            && r'.probe == (if !r.hasProbe || now > r.probeStamp + 5_000_000_000 then s.rtt else Min(r.probe, s.rtt))
            && r'.min == (if !r.hasMin || now > r.minStamp + 10_000_000_000 then r'.probe else Min(r.min, s.rtt))
            && now <= r'.probeStamp + 5_000_000_000 && now <= r'.minStamp + 10_000_000_000
            && (r'.minExpired <==> r.hasMin && now > r.minStamp + 10_000_000_000)
          else r' == r.(probeExpired := false, minExpired := false))
  {
    hide Sampled, IsLeast, IsLeastAt;
    assert h + [] == h;
    if s.rttValid && s.rtt != 0 {
      LeastNew(h, now, s.rtt);
      if r.hasProbe && r.probe <= s.rtt { LeastKept(h, Timed(now, s.rtt), r.probe, r.probeStamp); }
      if r.hasMin && r.min <= s.rtt { LeastKept(h, Timed(now, s.rtt), r.min, r.minStamp); }
      if r.hasProbe { LeastAtIsLeast(h + [Timed(now, s.rtt)], r.probe, r.probeStamp); }
    }
  }

  lemma LeastAtIsLeast(h: seq<Timing>, value: u64, stamp: u64)
    ensures IsLeastAt(h, value, stamp) ==> IsLeast(h, value, stamp)
  {
  }

  /** Leaving ProbeRTT renews the ten-second minimum. */
  lemma MinimaRenewed(r: Rtts, now: u64, h: seq<Timing>)
    requires MinimaOk(r, h)
    ensures MinimaOk(r.(minStamp := now, minExpired := false), h + [Renewed(now)])
  {
    hide Sampled, IsLeast, IsLeastAt;
    LeastKept(h, Renewed(now), r.probe, r.probeStamp);
    if r.hasMin { LeastRenewed(h, r.min, r.minStamp, now); }
  }

  lemma GrewExactly(from: u64, to: u64)
    ensures to >= FullBwThreshold(from) <==> Grew(from, to)
  {
  }

  /** One ACK of the full-pipe search. */
  lemma PipeLaw(p: Pipe, mode: Mode, start: bool, bw: u64, s: Rate, h: seq<Progress>)
    requires Follows(h, p.bw, p.count, p.full) && (s.valid && s.rate != 0 && !s.appLimited ==> bw != 0)
    ensures var p' := PipeChecked(p, mode, start, bw, s);
      var counts := mode == Startup && !p.full && start && s.valid && s.rate != 0 && !s.appLimited;
      && Follows(if counts then h + [Round(bw)] else h, p'.bw, p'.count, p'.full)
      && (p'.now <==> p'.full && !p.full)
  {
    hide Follows, FullBwThreshold, Grew;
    GrewExactly(p.bw, bw);
    if !p.full && bw != 0 { FollowsRound(h, p.bw, p.count, bw); }
  }

  lemma EstimatesLearn(s: State, ack: Ack, p: Path)
    requires PathOk(s.model, p)
    ensures var m := Estimated(s.model, ack.rate, ack.time);
      PathOk(m, Path(p.timings + Sampling(ack.rate, ack.time),
                     p.rounds + if Counts(s, ack.rate) then [Round(m.bw.max)] else []))
  {
    hide MinimaOk, Follows, RttUpdated, PipeChecked, Admit;
    MinimaLaw(s.model.rtts, ack.rate, ack.time, p.timings);
    var rounds := RoundUpdated(s.model.rounds, ack.rate);
    var bw := BwUpdated(s.model.bw, rounds.count, ack.rate);
    AdmitBounds(s.model.bw, rounds.count, ack.rate.rate);
    PipeLaw(s.model.pipe, s.model.mode, rounds.start, bw.max, ack.rate, p.rounds);
    assert p.rounds + [] == p.rounds;
  }

  /** The mode machine leaves the estimates alone, but for the renewal on leaving ProbeRTT. */
  predicate RenewedOnly(m: Model, n: Model, now: u64)
  {
    && n.bw == m.bw && n.pipe == m.pipe
    && n.rtts == if m.mode == ProbeRTT && n.mode != ProbeRTT then m.rtts.(minStamp := now, minExpired := false)
                 else m.rtts
  }

  lemma ModeRenews(s: State, t: Transport, ack: Ack, cwnd: u32, owned: bool)
    ensures RenewedOnly(s.model, ModeStep(s, t, ack, cwnd, owned).s.model, ack.time)
  {
    hide ModePolicy, Cycled, RestoredCwnd, BadWindow, BdpCeil, Minimum, SatAdd;
    var m := DrainChecked(s.model, ack.rate);
    ProbeRttRenews(m, s.probe, t, ack.rate, cwnd, ack.time);
    hide DrainChecked, ProbeRttUpdated;
    DrainFrame(s.model, ack.rate);
    DrainStays(s.model, ack.rate);
  }

  lemma DrainStays(m: Model, s: Rate)
    ensures DrainChecked(m, s).mode == ProbeRTT <==> m.mode == ProbeRTT
  {
    hide BdpCeil;
  }

  lemma ProbeRttRenews(m: Model, p: Probe, t: Transport, s: Rate, cwnd: u32, now: u64)
    ensures RenewedOnly(m, ProbeRttUpdated(m, p, t, s, cwnd, now).0, now)
  {
    hide Minimum, SatAdd, ResetCycle;
  }

  lemma AckRenews(s: State, t: Transport, ack: Ack)
    ensures var r := AckStep(s, t, ack);
      if Passes(s, t, ack) then RenewedOnly(Estimated(s.model, ack.rate, ack.time), r.s.model, ack.time)
      else r.s.model == s.model
  {
    hide Estimated, ModeStep, InitialRate, RecoveryAcked, RecoveryCwnd, RenewedOnly;
    if Passes(s, t, ack) {
      InitialRateNonzero(s.cwnd, ack.srtt);
      var o := Observed(RttSeen(s, ack), ack);
      var q := RecoveryAcked(s.recovery, o.model.rounds.start);
      SelfRenews(o.model, ack.time);
      ModeRenews(o, t, ack, o.cwnd, false);
      ModeRenews(o.(recovery := q), t, ack, RecoveryCwnd(q, o.cwnd, t, ack.acked), q.conservation);
    }
  }

  lemma SelfRenews(m: Model, now: u64)
    ensures RenewedOnly(m, m, now)
  {
  }

  lemma PathStep(s: State, i: Input, p: Path)
    requires PathOk(s.model, p)
    ensures PathOk(Next(s, i).s.model, Learned(p, s, i))
  {
    hide AckStep, Passes, Estimated, MinimaOk, Follows, Counts;
    match i.event {
      case AckEvent(ack, inflight) =>
        var t := Transport(i.mss, inflight, i.limit);
        AckRenews(s, t, ack);
        if Passes(s, t, ack) {
          EstimatesLearn(s, ack, p);
          ModeKept(s.model, ack.rate, ack.time);
          var e, sampled := Estimated(s.model, ack.rate, ack.time), p.timings + Sampling(ack.rate, ack.time);
          MinimaRenewed(e.rtts, ack.time, sampled);
          assert sampled + [] == sampled;
        }
      case Timeout(_) =>
        FollowsRestart(p.rounds, s.model.pipe.bw, s.model.pipe.count, s.model.pipe.full);
      case _ =>
    }
  }

  /** A packet-timed round: one more for each ACK that opens one, ending at what has
      been delivered by then. */
  lemma RoundsLaw(s: State, rate: Rate, now: u64)
    ensures Estimated(s.model, rate, now).rounds ==
      if Opens(s, rate) then Rounds(rate.delivered, s.model.rounds.count + 1, true)
      else s.model.rounds.(start := false)
  {
    hide RttUpdated, PipeChecked, BwUpdated;
  }

  lemma ModeKept(m: Model, s: Rate, now: u64)
    ensures Estimated(m, s, now).mode == m.mode
  {
    hide RttUpdated, PipeChecked, BwUpdated;
  }

  /** All a run has learned. */
  function PathOf(s: State, inputs: seq<Input>): Path
  {
    if inputs == [] then Path([], []) else
    var n := |inputs| - 1;
    Learned(PathOf(s, inputs[..n]), RunAny(s, inputs[..n]), inputs[n])
  }

  /** Over every run, whatever MSS and limit each event has: the five-second minimum is
      the least round trip since its own sample, taken at its stamp; the ten-second
      minimum is one no shorter round trip has been sampled since, and at most the other;
      and the pipe is full exactly when three counted rounds passed without the estimate
      growing by a quarter over the last that did. */
  lemma {:induction false} PathOverRuns(initialCwnd: u32, seed: u32, inputs: seq<Input>)
    ensures var s0 := Initial(initialCwnd, seed); PathOk(RunAny(s0, inputs).model, PathOf(s0, inputs))
  {
    hide Next, PathOk, Learned, Initial;
    if inputs == [] {
      FreshPath(initialCwnd, seed);
    } else {
      var n, s0 := |inputs| - 1, Initial(initialCwnd, seed);
      PathOverRuns(initialCwnd, seed, inputs[..n]);
      PathStep(RunAny(s0, inputs[..n]), inputs[n], PathOf(s0, inputs[..n]));
    }
  }

  lemma FreshPath(initialCwnd: u32, seed: u32)
    ensures PathOk(Initial(initialCwnd, seed).model, Path([], []))
  {
    hide InitialRate;
    FollowsNothing();
  }

  // ------------------------------------------------------------------- windows and rates

  function Clamp(x: int, lo: int, hi: int): int { Min(Max(x, lo), hi) }

  /** The bandwidth-delay product, rounded up; zero while either factor is unknown. */
  function Bdp(m: Model): nat
  { if m.rtts.hasMin then MulNonNegative(m.bw.max, m.rtts.min); BdpExactCeil(m.bw.max, m.rtts.min) else 0 }

  /** 739/256 of it, or `unknown`, between four segments and the limit. */
  function HighTarget(m: Model, t: Transport, unknown: nat): int
  { Clamp(if Bdp(m) == 0 then unknown else CeilScaled(Bdp(m), 739, 256), Min(4 * t.mss, t.limit), t.limit) }

  /** A gain over 256 with one per cent kept back. */
  function RateAt(bw: u64, gain: nat): int { FloorScaled(bw, gain * 99, 25600) }

  /** The window each mode publishes for an ACK of new data. */
  function WindowFor(s: State, t: Transport, ack: Ack, cwnd: u32): int
  {
    var floor, grown := Min(4 * t.mss, t.limit), cwnd + ack.acked;
    match s.model.mode
    case Startup =>
      var target := HighTarget(s.model, t, s.initialCwnd);
      if s.model.pipe.full then Clamp(Min(grown, target), floor, t.limit)
      else if cwnd < target || ack.rate.delivered < s.initialCwnd then Clamp(grown, floor, t.limit)
      else Max(cwnd, floor)
    case Drain => Clamp(Min(grown, HighTarget(s.model, t, floor)), floor, t.limit)
    case ProbeBW => Clamp(Min(grown, 2 * Bdp(s.model)), floor, t.limit)
    case ProbeRTT => floor
  }

  /** ... and the rate. */
  function RateFor(s: State): int
  {
    match s.model.mode
    case Startup => Max(RateAt(s.model.bw.max, 739), s.pacing)
    case Drain => RateAt(s.model.bw.max, 88)
    case ProbeBW =>
      RateAt(s.model.bw.max, if s.probe.cycleIndex == 0 then 320 else if s.probe.cycleIndex == 1 then 192 else 256)
    case ProbeRTT => RateAt(s.model.bw.max, 256)
  }

  /** Every published window, threshold and rate as a formula of the exact product. */
  lemma PolicyLaw(s: State, t: Transport, ack: Ack, cwnd: u32)
    requires ValidTransport(t) && 0 < cwnd <= t.limit && ModelOk(s.model) && ack.acked != 0
    requires 0 < s.initialCwnd <= t.limit
    ensures PolicyIs(ModePolicy(s, t, ack, cwnd), s, t, ack, cwnd)
  {
    hide StartupPolicy, DrainPolicy, ProbeBwPolicy, ProbeRttPolicy, PolicyIs;
    match s.model.mode {
      case Startup => StartupIs(s, t, ack, cwnd);
      case Drain => DrainIs(s, t, ack, cwnd);
      case ProbeBW => ProbeBwIs(s, t, ack, cwnd);
      case ProbeRTT => ProbeRttIs(s, t, ack, cwnd);
    }
  }

  ghost predicate PolicyIs(d: Decision, s: State, t: Transport, ack: Ack, cwnd: u32)
  {
    && d.Given? && d.policy.cwnd == WindowFor(s, t, ack, cwnd) && d.policy.pacing == RateFor(s)
    && d.policy.ssthresh == match s.model.mode
         case Startup => t.limit
         case ProbeRTT => Min(4 * t.mss, t.limit)
         case _ => Clamp(Bdp(s.model), Min(4 * t.mss, t.limit), t.limit)
  }

  lemma StartupIs(s: State, t: Transport, ack: Ack, cwnd: u32)
    requires ValidTransport(t) && 0 < cwnd <= t.limit && ModelOk(s.model) && ack.acked != 0
    requires 0 < s.initialCwnd <= t.limit && s.model.mode == Startup
    ensures PolicyIs(StartupPolicy(s.model, t, ack, s.initialCwnd, cwnd, s.pacing), s, t, ack, cwnd)
  {
    hide StartupTarget, HighTarget, Bdp, Paced, RateAt, ModelOk;
    TargetIs(s.model, t, s.initialCwnd);
    TargetBounds(s.model.bw.max, RttOf(s.model), t, s.initialCwnd);
    PacedIs(s.model.bw.max, 739);
  }

  lemma DrainIs(s: State, t: Transport, ack: Ack, cwnd: u32)
    requires ValidTransport(t) && 0 < cwnd <= t.limit && ModelOk(s.model) && ack.acked != 0 && s.model.mode == Drain
    ensures PolicyIs(DrainPolicy(s.model, t, ack, cwnd), s, t, ack, cwnd)
  {
    hide StartupTarget, HighTarget, BdpCeil, BdpExactCeil, Paced, RateAt;
    var floor := Min(4 * t.mss, t.limit);
    TargetIs(s.model, t, floor);
    TargetBounds(s.model.bw.max, RttOf(s.model), t, floor);
    PacedIs(s.model.bw.max, 88);
  }

  lemma ProbeBwIs(s: State, t: Transport, ack: Ack, cwnd: u32)
    requires ValidTransport(t) && 0 < cwnd <= t.limit && ModelOk(s.model) && ack.acked != 0 && s.model.mode == ProbeBW
    ensures PolicyIs(ProbeBwPolicy(s.model, s.probe, t, ack, cwnd), s, t, ack, cwnd)
  {
    hide BdpCeil, BdpExactCeil, ScaleCeil, Paced, RateAt, CeilScaled;
    TwiceIs(BdpCeil(s.model.bw.max, s.model.rtts.min));
    PacedIs(s.model.bw.max, Gain(s.probe));
  }

  lemma ProbeRttIs(s: State, t: Transport, ack: Ack, cwnd: u32)
    requires s.model.mode == ProbeRTT
    ensures PolicyIs(ProbeRttPolicy(s.model, t), s, t, ack, cwnd)
  {
    hide Paced, RateAt;
    PacedIs(s.model.bw.max, 256);
  }

  lemma PacedIs(bw: u64, gain: nat)
    requires gain <= 739
    ensures Paced(bw, gain) == RateAt(bw, gain)
  {
    hide ScaleFloor, FloorScaled;
  }

  lemma TargetIs(m: Model, t: Transport, unknown: u32)
    requires ValidTransport(t) && ModelOk(m)
    ensures StartupTarget(m.bw.max, RttOf(m), t, unknown) == HighTarget(m, t, unknown)
  {
    hide ScaleCeil, BdpCeil, CeilScaled, BdpExactCeil;
    BdpCeilPositive(m.bw.max, RttOf(m));
  }

  lemma TwiceIs(x: u64)
    ensures ScaleCeil(x, 512, 256) == Min(2 * x, U64_MAX)
  {
    hide ScaleCeil;
    assert CeilDiv(x * 512, 256) == 2 * x;
  }

  /** The bootstrap rate: the window once per RTT at the Startup gain. */
  lemma InitialRateLaw(cwnd: u32, srtt: u64)
    requires cwnd != 0
    ensures var rtt := if srtt != 0 then srtt else 1_000_000;
      && 0 <= cwnd * NS_PER_SEC / rtt
      && InitialRate(cwnd, srtt) == RateAt(Min(Max(1, cwnd * NS_PER_SEC / rtt), U64_MAX), 739)
  {
    hide ScaleFloor, FloorScaled;
    DivFacts(cwnd * NS_PER_SEC, if srtt != 0 then srtt else INITIAL_RTT);
  }

  /** A fresh controller knows nothing, and spreads its cycle start by the seed. */
  lemma FreshLaw(initialCwnd: u32, seed: u32)
    requires initialCwnd != 0
    ensures var s := Initial(initialCwnd, seed);
      && s.cwnd == s.initialCwnd == initialCwnd && s.probe.seed == seed % 7 && !s.probe.cycleStarted && !s.seenRtt
      && s.pacing == RateAt(initialCwnd * 1000, 739) && s.model.mode == Startup && !s.recovery.inRecovery
  {
    hide RateAt;
    InitialRateLaw(initialCwnd, 0);
  }

  // ---------------------------------------------------------------------- mode transitions

  /** Startup ends when the pipe is full; Drain when the flight fits the product. */
  lemma DrainLaw(m: Model, s: Rate)
    ensures DrainChecked(m, s) == m.(mode :=
      if m.mode == Drain || (m.mode == Startup && m.pipe.full)
      then if s.valid && 0 < Bdp(m) && s.priorInflight <= Bdp(m) then ProbeBW else Drain
      else m.mode)
  {
    hide BdpCeil, BdpExactCeil;
    BdpCeilPositive(m.bw.max, m.rtts.min);
  }

  /** The ProbeRTT hold starts with the first ACK that finds the flight at the floor and
      ends 200 ms and a packet-timed round later. */
  lemma ProbeRttLaw(m: Model, p: Probe, t: Transport, s: Rate, cwnd: u32, now: u64)
    ensures var (n, q, exited) := ProbeRttUpdated(m, p, t, s, cwnd, now);
      var entering := m.mode != ProbeRTT && m.rtts.minExpired;
      var inside := entering || m.mode == ProbeRTT;
      var waiting := entering || p.doneStamp == 0;
      var atFloor := s.priorInflight <= Min(4 * t.mss, t.limit);
      && (exited <==> inside && !waiting && now >= p.doneStamp && (p.roundDone || m.rounds.start))
      && n.mode == (if exited then (if m.pipe.full then ProbeBW else Startup) else if inside then ProbeRTT else m.mode)
      && q.priorCwnd == (if entering then Max(p.priorCwnd, cwnd) else p.priorCwnd)
      && (inside && waiting ==>
            && q.doneStamp == (if atFloor then Min(now + 200_000_000, U64_MAX) else 0)
            && (atFloor ==> n.rounds.next == s.delivered && !q.roundDone))
      && (inside && !waiting && !exited ==>
            q.doneStamp == p.doneStamp && q.roundDone == (p.roundDone || m.rounds.start))
      && (exited ==> q.doneStamp == 0 && n.rtts.minStamp == now)
      && (exited && m.pipe.full ==> q.cycleStarted && q.cycleStart == now && q.cycleIndex == (8 - p.seed % 7) % 8)
      && (entering ==> !q.cycleStarted)
      && (inside || (q == p && n == m))
  {
  }

  /** On leaving it the window is at least what it was before, within the limit. */
  lemma RestoreLaw(p: Probe, cwnd: u32, limit: u32)
    requires cwnd <= limit
    ensures RestoredCwnd(p, cwnd, limit) == Max(cwnd, Min(p.priorCwnd, limit))
  {
  }

  /** Exactly when a phase of the ProbeBW cycle ends, and where the cycle starts. */
  lemma CycleLaw(m: Model, p: Probe, s: Rate, lost: u32, now: u64)
    requires p.cycleIndex < 8 && (p.cycleStarted ==> p.cycleStart <= now)
    ensures var q := Cycled(m, p, s, lost, now);
      if !p.cycleStarted then q == p.(cycleIndex := (8 - p.seed % 7) % 8, cycleStart := now, cycleStarted := true) else
      var dwelt := now - p.cycleStart >= m.rtts.min;
      var over := Bdp(m) > 0 && match p.cycleIndex
        case 0 => dwelt && (lost != 0 || s.priorInflight >= CeilScaled(Bdp(m), 320, 256))
        case 1 => dwelt || s.priorInflight <= Bdp(m)
        case _ => dwelt;
      q == if over then p.(cycleIndex := (p.cycleIndex + 1) % 8, cycleStart := now) else p
  {
    hide BdpCeil, ScaleCeil, BdpExactCeil, CeilScaled;
    BdpCeilPositive(m.bw.max, m.rtts.min);
  }

  // ---------------------------------------------------------------------------- recovery

  /** Recovery's windows: conservation publishes what is in flight and newly
      acknowledged, a loss note takes the lost bytes off, a timeout keeps what survives
      and one segment, all between one segment and the limit; and leaving restores the
      larger of the current window and the one before entry. A loss outside recovery is
      only remembered. */
  lemma RecoveryLaw(s: State, mss: u32, limit: u32, e: Event)
    requires !Step(s, mss, limit, e).Rejected? && !e.AckEvent?
    ensures var r := Step(s, mss, limit, e);
      if e.LossNote? then r.Quiet? && r.s == s.(pendingLoss := Min(s.pendingLoss + e.lost, U32_MAX)) else
      && r.Accepted? && 0 < mss <= limit && r.policy == Policy(r.s.cwnd, limit, s.pacing) && r.s.model.bw == s.model.bw
      && match e
         case Enter(acked, lost, inflight) =>
           r.s.cwnd == Clamp(inflight + acked, mss, limit) && r.s.recovery == Recovery(s.cwnd, true, true)
           && r.s.pendingLoss == lost && r.s.model.rounds.next == s.delivered
         case RecoveryLoss(lost) =>
           r.s.cwnd == Clamp(s.cwnd - lost, mss, limit) && r.s.recovery == s.recovery
           && r.s.pendingLoss == Min(s.pendingLoss + lost, U32_MAX)
         case Exit =>
           r.s.cwnd == Min(Max(s.cwnd, s.recovery.priorCwnd), limit) && !r.s.recovery.inRecovery
           && !r.s.recovery.conservation && r.s.pendingLoss == 0
         case Timeout(postInflight) =>
           r.s.cwnd == Clamp(postInflight + mss, mss, limit) && r.s.recovery == Recovery(0, false, false)
           && r.s.pendingLoss == 0 && r.s.model.pipe.bw == 0 && r.s.model.rounds.start
  {
    hide Initial;
  }

  /** The window recovery hands to the mode machine on an ACK. */
  lemma ConservedLaw(r: Recovery, cwnd: u32, t: Transport, acked: u32)
    requires ValidWindow(cwnd, t)
    ensures RecoveryCwnd(r, cwnd, t, acked) == if r.conservation then Clamp(t.inflight + acked, cwnd, t.limit) else cwnd
  {
  }

  // ------------------------------------------------------------------------ the whole ACK

  predicate LeftProbeRtt(s: State, after: State) { s.model.mode == ProbeRTT && after.model.mode != ProbeRTT }

  /** The window an ACK's policy starts from. */
  function Starting(s: State, after: State, limit: u32): u32
  { if LeftProbeRtt(s, after) then Min(Max(s.cwnd, after.probe.priorCwnd), limit) else s.cwnd }

  /** An accepted ACK publishes the window and rate of the mode it ends in, from the
      window before it or the one ProbeRTT had saved; but while recovery conserves
      packets, the window is what is in flight and newly acknowledged. */
  lemma AckLaw(s: State, t: Transport, ack: Ack)
    requires Ok(s, t.mss, t.limit) && AckStep(s, t, ack).Accepted?
    ensures var r := AckStep(s, t, ack);
      var conserving := s.recovery.inRecovery && s.recovery.conservation && !Opens(s, ack.rate);
      && r.s.pendingLoss == 0 && r.policy.pacing == RateFor(r.s.(pacing := RttSeen(s, ack).pacing))
      && r.policy.cwnd ==
           if conserving then Clamp(t.inflight + ack.acked, s.cwnd, t.limit)
           else WindowFor(r.s, t, ack, Starting(s, r.s, t.limit))
  {
    hide RttUpdated, PipeChecked, BwUpdated, ModeStep, ModelOk, InitialRate, ProbeOk, NeededBw, ModeEnd,
      WindowFor, RateFor, RecoveryCwnd;
    AckExact(s, t, ack);
    InitialRateNonzero(s.cwnd, ack.srtt);
    var seen := RttSeen(s, ack);
    ObservedOk(seen, t, ack);
    var o := Observed(seen, ack);
    RecoveryBounds(o, t, ack.acked, o.model.rounds.start);
    ConservedLaw(RecoveryAcked(o.recovery, o.model.rounds.start), o.cwnd, t, ack.acked);
    var q := RecoveryAcked(o.recovery, o.model.rounds.start);
    if o.recovery.inRecovery {
      TailPolicy(o.(recovery := q), t, ack, RecoveryCwnd(q, o.cwnd, t, ack.acked), q.conservation);
    } else {
      TailPolicy(o, t, ack, o.cwnd, false);
    }
  }

  lemma TailPolicy(s: State, t: Transport, ack: Ack, cwnd: u32, owned: bool)
    requires Ok(s, t.mss, t.limit) && t.mss <= cwnd <= t.limit && ack.acked != 0
    requires s.model.hasUpdate && s.model.lastUpdate == ack.time && ModeStep(s, t, ack, cwnd, owned).Accepted?
    ensures var r := ModeStep(s, t, ack, cwnd, owned);
      && r.s.pendingLoss == 0 && r.policy.pacing == RateFor(r.s.(pacing := s.pacing))
      && r.policy.cwnd == if owned then cwnd else WindowFor(r.s, t, ack, Starting(s.(cwnd := cwnd), r.s, t.limit))
  {
    hide ModePolicy, DrainChecked, ProbeRttUpdated, Cycled, ModelOk, ProbeOk, WindowFor, RateFor;
    var m := DrainChecked(s.model, ack.rate);
    DrainKept(s.model, ack.rate);
    DrainStays(s.model, ack.rate);
    ProbeSame(s.probe, s.model, m);
    ProbeRttKept(m, s.probe, t, ack.rate, cwnd, ack.time);
    ExitedExactly(m, s.probe, t, ack.rate, cwnd, ack.time);
    var (n, p, exited) := ProbeRttUpdated(m, s.probe, t, ack.rate, cwnd, ack.time);
    var after := s.(model := n, probe := p);
    var next := if exited then RestoredCwnd(p, cwnd, t.limit) else cwnd;
    if n.mode == ProbeBW {
      CycleKept(n, p, ack.rate, s.pendingLoss, ack.time);
      CycleSaves(n, p, ack.rate, s.pendingLoss, ack.time);
      after := after.(probe := Cycled(n, p, ack.rate, s.pendingLoss, ack.time));
    }
    PolicyLaw(after, t, ack, next);
    FormulasRead(after, ModeStep(s, t, ack, cwnd, owned).s.(pacing := s.pacing), t, ack, next);
  }

  lemma ExitedExactly(m: Model, p: Probe, t: Transport, s: Rate, cwnd: u32, now: u64)
    ensures var (n, q, exited) := ProbeRttUpdated(m, p, t, s, cwnd, now);
      exited <==> m.mode == ProbeRTT && n.mode != ProbeRTT
  {
    hide Minimum, SatAdd, ResetCycle;
  }

  lemma CycleSaves(m: Model, p: Probe, s: Rate, lost: u32, now: u64)
    requires p.cycleStarted ==> p.cycleStart <= now
    ensures Cycled(m, p, s, lost, now).priorCwnd == p.priorCwnd
  {
    hide Advances;
  }

  lemma FormulasRead(s: State, s': State, t: Transport, ack: Ack, cwnd: u32)
    requires s'.model == s.model && s'.probe == s.probe && s'.initialCwnd == s.initialCwnd && s'.pacing == s.pacing
    ensures WindowFor(s, t, ack, cwnd) == WindowFor(s', t, ack, cwnd) && RateFor(s) == RateFor(s')
    ensures forall pacing: u64 :: WindowFor(s, t, ack, cwnd) == WindowFor(s'.(pacing := pacing), t, ack, cwnd)
  {
    hide HighTarget, RateAt, Bdp;
  }
}
