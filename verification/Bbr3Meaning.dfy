/** What BBRv3's estimates, phases, windows and bounds mean: the bandwidth filter, the
    minima and the full-pipe verdict over every run, and each move and published
    number as a formula. */
module Bbr3Meaning {
  import opened Words
  import opened Scaling
  import opened RoundRing
  import opened PathHistory
  import opened Bbr3Model
  import opened Bbr3Runs

  // -------------------------------------------------------------- what the path taught it

  /** Bandwidth samples by probing cycle, round-trip samples, and counted rounds. */
  datatype Path = Path(rates: seq<Sample>, timings: seq<Timing>, rounds: seq<Progress>)

  predicate Opens(s: State, rate: Rate) { 0 < rate.delivered && s.model.rounds.next <= rate.prior }

  predicate Counts(s: State, rate: Rate, bw: u64)
  { !s.model.pipe.full && Opens(s, rate) && rate.valid && !rate.appLimited && bw != 0 }

  /** A sample the bandwidth filter takes. */
  predicate Taken(bw: u64, rate: Rate) { rate.valid && rate.rate != 0 && !(rate.appLimited && rate.rate < bw) }

  function Rated(b: Bw, rate: Rate): seq<Sample> { if Taken(b.max, rate) then [Sample(b.cycle, rate.rate)] else [] }

  function Sampling(rate: Rate, now: u64): seq<Timing>
  { if rate.rttValid && rate.rtt != 0 then [Timed(now, rate.rtt)] else [] }

  function Counting(s: State, rate: Rate): seq<Progress>
  {
    var bw := BwUpdated(s.model.bw, rate).max;
    if Counts(s, rate, bw) then [Round(bw)] else []
  }

  predicate LeftProbeRtt(s: State, after: State) { s.model.phase == ProbeRTT && after.model.phase != ProbeRTT }

  /** What one ACK adds to the history. */
  function Learned(p: Path, s: State, a: Ack): Path
  {
    if Malformed(s, a) then p else
    Path(p.rates + Rated(s.model.bw, a.rate),
         p.timings + Sampling(a.rate, a.now)
           + (if LeftProbeRtt(s, AckStep(s, a).s) then [Renewed(a.now)] else []),
         p.rounds + Counting(s, a.rate))
  }

  /** One slot holds the largest sample of this cycle, the other that of the one before. */
  ghost predicate CyclesOk(b: Bw, h: seq<Sample>)
  {
    && RoundsUpTo(h, b.cycle) && b.max == Max(b.even, b.odd)
    && (if b.cycle % 2 == 0 then b.even else b.odd) == AtRound(h, b.cycle)
    && (if b.cycle % 2 == 0 then b.odd else b.even) == AtRound(h, b.cycle - 1)
  }

  ghost predicate MinimaOk(r: Rtts, h: seq<Timing>)
  {
    && r.hasProbe == r.hasMin == Sampled(h)
    && (r.hasMin ==> IsLeast(h, r.probe, r.probeStamp) && IsLeast(h, r.min, r.minStamp) && r.min <= r.probe)
  }

  ghost predicate PathOk(m: Model, p: Path)
  {
    && CyclesOk(m.bw, p.rates) && MinimaOk(m.rtts, p.timings)
    && Follows(p.rounds, m.pipe.bw, m.pipe.count, m.pipe.full)
  }

  /** The estimate is the largest sample of the current cycle and the one before it. */
  lemma CyclesMax(b: Bw, h: seq<Sample>)
    requires CyclesOk(b, h)
    ensures b.max == Peak(h, b.cycle - 2, b.cycle)
  {
    hide Peak;
    PeakSplit(h, b.cycle - 2, b.cycle - 1, b.cycle);
  }

  lemma CyclesSample(b: Bw, h: seq<Sample>, rate: Rate)
    requires CyclesOk(b, h)
    ensures CyclesOk(BwUpdated(b, rate), h + Rated(b, rate))
  {
    assert h + [] == h;
    if Taken(b.max, rate) {
      PeakSnoc(h, Sample(b.cycle, rate.rate), b.cycle - 1, b.cycle);
      PeakSnoc(h, Sample(b.cycle, rate.rate), b.cycle - 2, b.cycle - 1);
    }
    hide Peak;
  }

  lemma CyclesAge(b: Bw, h: seq<Sample>)
    requires CyclesOk(b, h) && b.cycle < U32_MAX
    ensures CyclesOk(NextCycle(b), h)
  {
    hide Peak;
    PeakOfFuture(h, b.cycle, b.cycle, b.cycle + 1);
  }

  /** What an ACK does to the minima: a sample replaces the five-second one when it is
      shorter or that one's stamp is more than five seconds old; the ten-second one
      follows when it is larger or more than ten seconds old. */
  lemma MinimaLaw(r: Rtts, s: Rate, now: u64, h: seq<Timing>)
    requires MinimaOk(r, h)
    ensures var r', sampled := RttUpdated(r, s, now), s.rttValid && s.rtt != 0;
      && MinimaOk(r', h + Sampling(s, now))
      && (sampled ==>
            && r'.probe == (if !r.hasProbe || now > r.probeStamp + 5_000_000_000 then s.rtt else Min(r.probe, s.rtt))
            && now <= r'.probeStamp + 5_000_000_000)
      && (!sampled ==> r'.probe == r.probe && r'.probeStamp == r.probeStamp && r'.hasProbe == r.hasProbe)
      && (r'.hasMin ==>
            r'.min == if !r.hasMin || now > r.minStamp + 10_000_000_000 then r'.probe else Min(r.min, r'.probe))
      && (r'.expired <==> r.hasProbe && now > r.probeStamp + 5_000_000_000)
  {
    hide Sampled, IsLeast;
    assert h + [] == h;
    if s.rttValid && s.rtt != 0 {
      LeastNew(h, now, s.rtt);
      if r.hasProbe && r.probe <= s.rtt { LeastKept(h, Timed(now, s.rtt), r.probe, r.probeStamp); }
      if r.hasMin && r.min <= s.rtt { LeastKept(h, Timed(now, s.rtt), r.min, r.minStamp); }
    }
  }

  /** Leaving ProbeRTT renews the five-second minimum. */
  lemma MinimaRenewed(r: Rtts, now: u64, h: seq<Timing>)
    requires MinimaOk(r, h)
    ensures MinimaOk(r.(probeStamp := now, expired := false), h + [Renewed(now)])
  {
    hide Sampled, IsLeast;
    LeastKept(h, Renewed(now), r.min, r.minStamp);
    if r.hasProbe { LeastRenewed(h, r.probe, r.probeStamp, now); }
  }

  lemma GrewExactly(from: u64, to: u64)
    ensures to >= Threshold(from) <==> Grew(from, to)
  {
  }

  lemma PipeLaw(p: Pipe, start: bool, bw: u64, s: Rate, h: seq<Progress>)
    requires Follows(h, p.bw, p.count, p.full)
    ensures var p' := PipeUpdated(p, start, bw, s);
      Follows(if !p.full && start && s.valid && !s.appLimited && bw != 0 then h + [Round(bw)] else h,
              p'.bw, p'.count, p'.full)
  {
    hide Follows, Threshold, Grew;
    GrewExactly(p.bw, bw);
    if !p.full && bw != 0 { FollowsRound(h, p.bw, p.count, bw); }
  }

  lemma EstimatesLearn(s: State, a: Ack, p: Path)
    requires PathOk(s.model, p) && a.rate.prior <= a.rate.delivered
    ensures PathOk(Estimated(s.model, a.rate, a.now),
                   Path(p.rates + Rated(s.model.bw, a.rate), p.timings + Sampling(a.rate, a.now),
                        p.rounds + Counting(s, a.rate)))
  {
    hide CyclesOk, MinimaOk, Follows, RttUpdated, PipeUpdated, BwUpdated;
    CyclesSample(s.model.bw, p.rates, a.rate);
    MinimaLaw(s.model.rtts, a.rate, a.now, p.timings);
    var rounds, bw := RoundUpdated(s.model.rounds, a.rate), BwUpdated(s.model.bw, a.rate);
    PipeLaw(s.model.pipe, rounds.start, bw.max, a.rate, p.rounds);
    assert p.rounds + [] == p.rounds;
  }

  /** One more packet-timed round for each ACK that opens one. */
  lemma RoundsLaw(s: State, rate: Rate, now: u64)
    ensures Estimated(s.model, rate, now).rounds ==
      if Opens(s, rate) then Rounds(rate.delivered, s.model.rounds.count + 1, true)
      else s.model.rounds.(start := false)
  {
    hide RttUpdated, PipeUpdated, BwUpdated;
  }

  /** What the phase machine does to the estimates: it may age the bandwidth filter, and
      renews the five-second minimum on leaving ProbeRTT. */
  predicate AgedOnly(m: Model, n: Model, now: u64)
  {
    && n.pipe == m.pipe && (n.bw == m.bw || (m.bw.cycle < U32_MAX && n.bw == NextCycle(m.bw)))
    && n.rtts == if m.phase == ProbeRTT && n.phase != ProbeRTT then m.rtts.(probeStamp := now, expired := false)
                 else m.rtts
  }

  lemma ProbeAges(s: State, a: Ack, excess: bool)
    requires MidOk(s, a) && InProbeBW(s.model.phase)
    ensures var n := ProbeStep(s, a, excess).model;
      && n == s.model.(phase := n.phase, bw := n.bw) && InProbeBW(n.phase)
      && (n.bw == s.model.bw || (s.model.bw.cycle < U32_MAX && n.bw == NextCycle(s.model.bw)))
  {
    hide SeenBy, BeganProbe, ProbeRejects, Scheduled, PhaseOk, Fed;
    ScheduledAges(s.probe, s.model, SeenBy(s, a, excess));
  }

  lemma ScheduledAges(p: Probe, m: Model, x: Seen)
    requires InProbeBW(m.phase)
    ensures var v := Scheduled(p, m, x);
      && InProbeBW(v.phase) && (v.bw == m.bw || (m.bw.cycle < U32_MAX && v.bw == NextCycle(m.bw)))
  {
    hide TimeToProbe, TimeToCruise, RefillEntered, UpEntered, Stop, Plateaued, AtPlateau, Counted, NewRound, NextCycle;
  }

  lemma HoldRenews(s: State, a: Ack)
    requires LateOk(s, a)
    ensures var n := Held(HoldEntered(s, a), a).model;
      && n.bw == s.model.bw && n.pipe == s.model.pipe
      && n.rtts == (if s.model.phase == ProbeRTT && n.phase != ProbeRTT
                    then s.model.rtts.(probeStamp := a.now, expired := false) else s.model.rtts)
  {
    hide RttTarget, SatAdd, Entered, BdpFloor, PhaseOk, Released;
    HoldEnteredKept(s, a);
    var h := HoldEntered(s, a);
    var done := h.hold.roundDone || (a.rate.prior >= h.hold.roundDelivered && a.rate.delivered > a.rate.prior);
    var released := h.(hold := h.hold.(roundDone := done));
    if h.model.phase == ProbeRTT {
      ReleasedKept(released, a);
      ReleasedRenews(released, a);
    }
  }

  lemma ReleasedRenews(s: State, a: Ack)
    ensures var n := Released(s, a).model;
      n == s.model.(phase := n.phase, rtts := s.model.rtts.(probeStamp := a.now, expired := false))
  {
    hide Entered, EnterRejects;
  }

  lemma AdvanceAges(s: State, a: Ack, excess: bool)
    requires MidOk(s, a) && s.cwnd > 0 && a.rate.prior <= a.rate.delivered
    ensures AgedOnly(s.model, Advanced(s, a, excess).model, a.now)
  {
    hide Drained, ProbeStep, HoldEntered, Held, PhaseOk, Fed, NextCycle;
    DrainedKept(s, a);
    DrainedFrame(s, a);
    DrainedRtts(s, a);
    var d := Drained(s, a);
    var p := if InProbeBW(s.model.phase) then ProbeStep(d, a, excess) else d;
    if InProbeBW(s.model.phase) {
      ProbeStepKept(d, a, excess);
      ProbeStepFrame(d, a, excess);
      ProbeAges(d, a, excess);
    }
    HoldRenews(p, a);
  }

  lemma DrainedRtts(s: State, a: Ack)
    ensures var n := Drained(s, a).model;
      n == s.model.(phase := n.phase) && (n.phase == ProbeRTT <==> s.model.phase == ProbeRTT)
  {
    hide BdpFloor, Entered, EnterRejects;
  }

  lemma PathStep(s: State, a: Ack, p: Path)
    requires Ok(s) && (a.rate.valid ==> a.rate.rate != 0) && PathOk(s.model, p)
    ensures PathOk(AckStep(s, a).s.model, Learned(p, s, a))
  {
    hide AckStep, Before, Advanced, Concluded, Estimated, CyclesOk, MinimaOk, Follows, PhaseOk, NextCycle, Fed;
    AckShape(s, a);
    if !Malformed(s, a) {
      WellFormed(s, a);
      var g := Before(s, a);
      BeforeFrame(s, a);
      EstimatesKept(s.model, s.probe, a.rate, a.now);
      EstimatesLearn(s, a, p);
      AdvanceAges(g, a, ExcessOf(s, a));
      AdvancedFrame(g, a, ExcessOf(s, a));
      ConcludedBounds(Advanced(g, a, ExcessOf(s, a)), a);
      var rates, timings := p.rates + Rated(s.model.bw, a.rate), p.timings + Sampling(a.rate, a.now);
      if g.model.bw.cycle < U32_MAX { CyclesAge(g.model.bw, rates); }
      MinimaRenewed(g.model.rtts, a.now, timings);
      assert timings + [] == timings;
    }
  }

  function PathOf(s: State, acks: seq<Ack>): Path
  {
    if acks == [] then Path([], [], []) else
    var n := |acks| - 1;
    Learned(PathOf(s, acks[..n]), Run(s, acks[..n]), acks[n])
  }

  /** Over every run of samples that carry a rate: the bandwidth estimate is the largest
      sample of the current probing cycle and the one before; each minimum is a sampled
      round trip with no shorter one since; and the pipe is full exactly when three
      counted rounds passed without growth by a quarter. */
  lemma {:induction false} PathOverRuns(initialCwnd: u32, mss: u32, seed: bv32, now: u64, acks: seq<Ack>)
    requires ValidInit(initialCwnd, mss, seed, now) && RatesCarried(acks)
    ensures var s0 := Initial(initialCwnd, mss, seed, now);
      var m, p := Run(s0, acks).model, PathOf(s0, acks);
      Ok(Run(s0, acks)) && PathOk(m, p) && m.bw.max == Peak(p.rates, m.bw.cycle - 2, m.bw.cycle)
  {
    hide AckStep, Ok, PathOk, Learned, Initial, Peak;
    var s0 := Initial(initialCwnd, mss, seed, now);
    PhaseMachine(initialCwnd, mss, seed, now, acks, 0);
    if acks == [] {
      FreshPath(initialCwnd, mss, seed, now);
    } else {
      var n := |acks| - 1;
      PathOverRuns(initialCwnd, mss, seed, now, acks[..n]);
      PathStep(Run(s0, acks[..n]), acks[n], PathOf(s0, acks[..n]));
    }
    PathPeak(Run(s0, acks).model, PathOf(s0, acks));
  }

  lemma PathPeak(m: Model, p: Path)
    requires PathOk(m, p)
    ensures m.bw.max == Peak(p.rates, m.bw.cycle - 2, m.bw.cycle)
  {
    CyclesMax(m.bw, p.rates);
  }

  lemma FreshPath(initialCwnd: u32, mss: u32, seed: bv32, now: u64)
    ensures PathOk(Initial(initialCwnd, mss, seed, now).model, Path([], [], []))
  {
    hide Scale3;
    FollowsNothing();
  }

  // ------------------------------------------------------------------------ the window

  /** The short-term rate bound holds back the phases that do not probe. */
  predicate Restrained(p: Phase) { p == Drain || p == Down || p == Cruise || p == ProbeRTT }

  function Rate3(s: State): u64
  { if Restrained(s.model.phase) then Min(s.model.bw.max, s.cong.shortBw) else s.model.bw.max }

  function Bdp(bw: u64, rtt: u64): u64 { MulNonNegative(bw, rtt); BdpExactFloor(bw, rtt) }

  /** The phase's multiple of the product. */
  function Multiple(p: Phase, bdp: nat): nat
  { if p == Up then bdp * 9 / 4 else if p == ProbeRTT then bdp / 2 else 2 * bdp }

  function Clip(x: int): int { Min(x, U64_MAX) }

  /** That multiple and the measured aggregation, at least four segments; two more in UP. */
  function Target(s: State): int
  {
    if !s.model.rtts.hasMin || Rate3(s) == 0 then s.conf.initialCwnd else
    var share := Clip(Multiple(s.model.phase, Bdp(Rate3(s), s.model.rtts.min)));
    var wanted := Max(Clip(share + s.agg.extra), 4 * s.conf.mss);
    if s.model.phase == Up then Clip(wanted + 2 * s.conf.mss) else wanted
  }

  /** 85 per cent of the long-term bound: less 15 per cent, at least one segment less. */
  function Headroom(long: u64, mss: u32): int
  { if long == U64_MAX then U64_MAX else Max(long - Max(long * 15 / 100, mss), 4 * mss) }

  function Cap(s: State): int
  {
    var p, long := s.model.phase, s.cong.longInflight;
    if p == Startup then U64_MAX else
    var roomy := if p == Cruise || p == ProbeRTT then Headroom(long, s.conf.mss) else long;
    Max(if Restrained(p) then Min(roomy, s.cong.shortInflight) else roomy, 4 * s.conf.mss)
  }

  /** With a full pipe the window grows by what was acknowledged up to the target;
      before that it grows without a target, and only holds once it is past the target
      and the initial window has been delivered. */
  function Wanted(s: State, a: Ack, cwnd: u32): int
  {
    if s.model.pipe.full then Min(cwnd + a.acked, Target(s))
    else if cwnd < Target(s) || a.rate.delivered < s.conf.initialCwnd then cwnd + a.acked
    else cwnd
  }

  /** ProbeRTT stays within half the product. */
  function HalfBdp(s: State): int { Max(Bdp(s.model.bw.max, s.model.rtts.min) / 2, 4 * s.conf.mss) }

  function WindowFor(s: State, a: Ack, cwnd: u32): int
  {
    var held := if s.model.phase == ProbeRTT then Min(Wanted(s, a, cwnd), HalfBdp(s)) else Wanted(s, a, cwnd);
    Min(Max(Min(held, Cap(s)), 4 * s.conf.mss), U32_MAX)
  }

  lemma RateIs(s: State)
    ensures CappedRate(s) == Rate3(s)
  {
  }

  lemma TargetIs(s: State)
    ensures Inflight(s) == Target(s)
  {
    hide BdpFloor, Scale3, BdpExactFloor;
    RateIs(s);
    hide CappedRate, Rate3;
    if s.model.rtts.hasMin { GainIs(s.model.phase, Bdp(Rate3(s), s.model.rtts.min)); }
  }

  lemma GainIs(p: Phase, bdp: u64)
    ensures var gain := CwndGain(p);
      gain.1 > 0 && FloorScaled(bdp, gain.0, gain.1) == Clip(Multiple(p, bdp))
  {
  }

  lemma HeadroomIs(long: u64, mss: u32)
    requires mss > 0
    ensures WithHeadroom(long, mss) == Headroom(long, mss)
  {
    hide Scale3;
    assert long * 15 / 100 <= long;
  }

  lemma CapIs(s: State)
    requires s.conf.mss > 0
    ensures CwndCap(s.cong, s.model.phase, s.conf.mss) == Cap(s)
  {
    hide WithHeadroom, Headroom;
    HeadroomIs(s.cong.longInflight, s.conf.mss);
  }

  /** The window the policy publishes, from the state it is handed. */
  lemma WindowLaw(s: State, a: Ack)
    requires s.conf.mss > 0
    ensures Concluded(s, a).policy.cwnd == WindowFor(s, a, s.cwnd) && Concluded(s, a).policy.maxInflight == Target(s)
  {
    hide Inflight, RttTarget, CwndCap, Target, Cap, HalfBdp, NewPacing;
    TargetIs(s);
    CapIs(s);
    HalfIs(s);
    CapAtLeast(s.cong, s.model.phase, s.conf.mss);
    TargetAtLeast(s);
  }

  lemma HalfIs(s: State)
    ensures RttTarget(s) == HalfBdp(s)
  {
    hide BdpFloor, BdpExactFloor;
  }

  /** The window an ACK's policy starts from: leaving ProbeRTT brings back the old one. */
  function Starting(s: State, after: State): u32
  { if LeftProbeRtt(s, after) then Max(s.cwnd, s.priorCwnd) else s.cwnd }

  /** An accepted ACK publishes the window of the phase it ends in. */
  lemma AckWindow(s: State, a: Ack)
    requires Ok(s) && (a.rate.valid ==> a.rate.rate != 0) && !Malformed(s, a)
    ensures var r := AckStep(s, a);
      && r.Accepted? && r.policy.cwnd == WindowFor(r.s, a, Starting(s, r.s)) && r.policy.maxInflight == Target(r.s)
      && r.policy.extra == r.s.agg.extra && r.policy.phase == r.s.model.phase
      && (r.policy.markAppLimited <==> r.s.model.phase == ProbeRTT)
  {
    hide AckStep, Before, Advanced, Estimated, PhaseOk, WindowFor, Target, Fed, Malformed;
    AckShape(s, a);
    WellFormed(s, a);
    var g := Before(s, a);
    BeforeFrame(s, a);
    EstimatesKept(s.model, s.probe, a.rate, a.now);
    BeforePrior(s, a);
    AdvancedWindow(g, a, ExcessOf(s, a));
    AdvancedFrame(g, a, ExcessOf(s, a));
    var h := Advanced(g, a, ExcessOf(s, a));
    WindowLaw(h, a);
    ConcludedBounds(h, a);
    WindowReads(h, Concluded(h, a).s, a, h.cwnd);
  }

  lemma BeforePrior(s: State, a: Ack)
    requires s.conf.mss > 0 && s.agg.stamp <= a.now
    ensures Before(s, a).priorCwnd == s.priorCwnd && Before(s, a).hold == s.hold
  {
    hide Congested, Aggregated, Estimated, Inflight;
  }

  lemma WindowReads(s: State, s': State, a: Ack, cwnd: u32)
    requires s' == s.(cwnd := s'.cwnd, pacing := s'.pacing)
    ensures WindowFor(s, a, cwnd) == WindowFor(s', a, cwnd) && Target(s) == Target(s')
  {
    hide BdpExactFloor;
  }

  /** The phase machine moves the window only when it leaves ProbeRTT. */
  lemma AdvancedWindow(s: State, a: Ack, excess: bool)
    requires MidOk(s, a) && s.cwnd > 0 && a.rate.prior <= a.rate.delivered
    ensures Advanced(s, a, excess).cwnd == Starting(s, Advanced(s, a, excess))
  {
    hide Drained, ProbeStep, HoldEntered, Held, PhaseOk, Fed, NextCycle;
    DrainedKept(s, a);
    DrainedFrame(s, a);
    DrainedRtts(s, a);
    DrainedWindow(s, a);
    var d := Drained(s, a);
    var p := if InProbeBW(s.model.phase) then ProbeStep(d, a, excess) else d;
    if InProbeBW(s.model.phase) {
      ProbeStepKept(d, a, excess);
      ProbeStepFrame(d, a, excess);
      ProbeAges(d, a, excess);
      ProbeWindow(d, a, excess);
    }
    HoldWindow(p, a);
  }

  lemma DrainedWindow(s: State, a: Ack)
    ensures Drained(s, a).cwnd == s.cwnd && Drained(s, a).priorCwnd == s.priorCwnd
  {
    hide BdpFloor, Entered, EnterRejects;
  }

  lemma ProbeWindow(s: State, a: Ack, excess: bool)
    ensures ProbeStep(s, a, excess).cwnd == s.cwnd && ProbeStep(s, a, excess).priorCwnd == s.priorCwnd
  {
    hide SeenBy, BeganProbe, ProbeRejects, Scheduled;
  }

  lemma HoldWindow(s: State, a: Ack)
    requires LateOk(s, a)
    ensures var n := Held(HoldEntered(s, a), a); n.cwnd == Starting(s, n)
  {
    hide RttTarget, SatAdd, Entered, BdpFloor, PhaseOk, Released;
    HoldEnteredKept(s, a);
    var h := HoldEntered(s, a);
    var done := h.hold.roundDone || (a.rate.prior >= h.hold.roundDelivered && a.rate.delivered > a.rate.prior);
    var released := h.(hold := h.hold.(roundDone := done));
    if h.model.phase == ProbeRTT {
      ReleasedKept(released, a);
      ReleasedWindow(released, a);
    }
  }

  lemma ReleasedWindow(s: State, a: Ack)
    ensures Released(s, a).cwnd == Max(s.cwnd, s.priorCwnd)
  {
    hide Entered, EnterRejects;
  }

  // -------------------------------------------------------------------------- the rate

  /** The phase's gain as a fraction of a hundred. */
  function Percent(p: Phase): nat
  { match p case Startup => 277 case Drain => 50 case Down => 90 case Up => 125 case _ => 100 }

  /** The new rate is the phase's percentage of the capped estimate, less one per cent;
      it replaces the old one if the pipe is full or it is higher. */
  lemma RateLaw(s: State, a: Ack)
    ensures var wanted := Clip(Clip(Rate3(s) * Percent(s.model.phase) / 100) * 99 / 100);
      var r := Concluded(s, a);
      && r.policy.pacing == (if wanted != 0 && s.model.pipe.full then wanted
                             else if wanted > s.pacing then wanted else s.pacing)
      && r.policy.quantum == Min(Max(Min(r.policy.pacing / 1000, 65536), 2 * s.conf.mss), U32_MAX)
  {
    hide Scale3, Inflight, NewCwnd;
    RateIs(s);
    PercentIs(s.model.phase, CappedRate(s));
  }

  lemma PercentIs(p: Phase, rate: u64)
    ensures var gain := PacingGain(p);
      gain.1 > 0 && FloorScaled(rate, gain.0, gain.1) == Clip(rate * Percent(p) / 100)
  {
  }

  /** Before any sample the initial window is paced over a millisecond at Startup's gain. */
  lemma FreshLaw(initialCwnd: u32, mss: u32, seed: bv32, now: u64)
    ensures var s := Initial(initialCwnd, mss, seed, now);
      && s.pacing == initialCwnd * 1000 * 277 / 100 && s.cwnd == initialCwnd && s.agg.stamp == now
      && s.cong.shortBw == s.cong.shortInflight == s.cong.longInflight == U64_MAX && s.cong.ecn.alpha == 256
  {
    hide Scale3;
    assert SatMul(initialCwnd, 1000) == initialCwnd * 1000 by { assert Mul(initialCwnd, 1000) == initialCwnd * 1000; }
  }

  // ----------------------------------------------------------------- ACK aggregation

  /** Bytes acknowledged in this interval beyond what the rate explains, and the bytes of
      this ACK, at most a window; an interval ends once the rate explains all of it. */
  lemma BeyondLaw(g: Agg, now: u64, acked: u32, bw: u64, cwnd: u32)
    requires g.stamp <= now
    ensures var (g', extra) := Beyond(g, now, acked, bw, cwnd);
      var explained := Bdp(bw, now - g.stamp);
      && (g.delivered + acked <= U64_MAX ==> extra == Min(cwnd, Max(0, g.delivered - explained) + acked))
      && g'.ring == g.ring
      && (if g.delivered <= explained then g'.stamp == now && g'.delivered == acked && extra == Min(cwnd, acked)
          else
            && g'.stamp == g.stamp && g'.delivered == Clip(g.delivered + acked)
            && extra == Min(cwnd, g'.delivered - explained))
  {
    hide BdpFloor, BdpExactFloor;
  }

  // ------------------------------------------------------------------- phases and probing

  /** Startup ends when the pipe is full. Drain ends when the flight fits the product, or
      after more than three rounds; then a scheduler starts in DOWN. */
  lemma DrainLaw(s: State, a: Ack)
    requires MidOk(s, a)
    ensures var r, draining := Drained(s, a), s.model.phase == Drain || (s.model.phase == Startup && s.model.pipe.full);
      var since := if s.model.phase == Startup then s.model.rounds.count else s.drainStart;
      var drained := s.model.rtts.hasMin &&
        (a.inflight <= Bdp(s.model.bw.max, s.model.rtts.min) || s.model.rounds.count > since + 3);
      && r.model.phase == (if !draining then s.model.phase else if drained then Down else Drain)
      && (draining ==> r.drainStart == since)
      && (draining && drained ==>
            r.probe.marks == Marks(true, false, false, false, false)
            && Drawn(r.probe, s.conf.seed, a.now, a.rate.delivered))
  {
    hide BdpFloor, BdpExactFloor, Draw, Coin, Jitter;
    CoinIs(Draw(s.conf.seed));
    JitterIs(Draw(Draw(s.conf.seed)));
  }

  /** ProbeRTT is entered when the five-second minimum has expired, unless the flow
      restarts from idle; the hold runs from the first ACK that finds the flight within
      half the product, for more than 200 ms and a round. */
  lemma HoldLaw(s: State, a: Ack)
    requires LateOk(s, a)
    ensures var n, p := Held(HoldEntered(s, a), a), s.model.phase;
      var entering := p != ProbeRTT && s.model.rtts.expired && !a.flags.idleRestart && s.model.rtts.hasMin;
      var inside, waiting := entering || p == ProbeRTT, entering || s.hold.done == 0;
      var round := s.hold.roundDone || s.hold.roundDelivered <= a.rate.prior < a.rate.delivered;
      var over := inside && !waiting && round && a.now > s.hold.done;
      && n.model.phase == (if over then (if s.model.pipe.full then Cruise else Startup)
                           else if inside then ProbeRTT else p)
      && n.priorCwnd == (if entering then s.cwnd else s.priorCwnd)
      && (inside && waiting ==>
            n.hold.done == if a.inflight <= HalfBdp(s) then Min(a.now + 200_000_000, U64_MAX)
                           else if entering then 0 else s.hold.done)
      && (inside && waiting && a.inflight <= HalfBdp(s) ==>
            n.hold.roundDelivered == a.rate.delivered && !n.hold.roundDone)
      && (inside && !waiting && !over ==> n.hold.done == s.hold.done && n.hold.roundDone == round)
      && (over ==> n.cong.shortBw == n.cong.shortInflight == U64_MAX && n.cwnd == Max(s.cwnd, s.priorCwnd))
  {
    hide RttTarget, HalfBdp, Released, PhaseOk;
    HoldEnteredKept(s, a);
    var h := HoldEntered(s, a);
    HalfIs(h);
    HalfReads(s, h);
    var done := h.hold.roundDone || (a.rate.prior >= h.hold.roundDelivered && a.rate.delivered > a.rate.prior);
    var released := h.(hold := h.hold.(roundDone := done));
    if h.model.phase == ProbeRTT {
      ReleasedKept(released, a);
      ReleasedWindow(released, a);
      ReleasedShort(released, a);
    }
  }

  lemma HalfReads(s: State, h: State)
    requires h.model.bw == s.model.bw && h.model.rtts == s.model.rtts && h.conf == s.conf
    ensures HalfBdp(h) == HalfBdp(s)
  {
    hide BdpExactFloor;
  }

  lemma ReleasedShort(s: State, a: Ack)
    ensures var r := Released(s, a); r.cong.shortBw == r.cong.shortInflight == U64_MAX && r.priorCwnd == s.priorCwnd
  {
    hide Entered, EnterRejects;
  }

  /** The scheduler's own rounds: data sent after everything delivered when the last
      one began. */
  predicate RoundPassed(p: Probe, s: Rate) { 0 < s.delivered && p.next <= s.prior }

  function RoundsNow(p: Probe, s: Rate): nat { if RoundPassed(p, s) then Min(p.rounds + 1, U32_MAX) else p.rounds }

  /** Probing is due: the drawn wait is over, or Reno would have grown by a segment. */
  predicate Due(p: Probe, m: Model, x: Seen)
    requires x.mss > 0
  {
    MulNonNegative(m.bw.max, m.rtts.min);
    || x.now > p.stamp + p.wait
    || RoundsNow(p, x.s) >= Min(63, CeilDiv(Min(BdpExactCeil(m.bw.max, m.rtts.min), x.cwnd), x.mss))
  }

  /** The flight fits the product and the headroom. */
  predicate Settled(m: Model, x: Seen)
  {
    MulNonNegative(m.bw.max, m.rtts.min);
    x.inflight <= BdpExactCeil(m.bw.max, m.rtts.min) && x.inflight <= Headroom(x.longInflight, x.mss)
  }

  /** A REFILL waits for a round of its own, and forgets the last probe's precaution. */
  predicate Refilling(p: Probe, s: Rate)
  { p.next == s.delivered && p.stagnant == 0 && p.ackPhase == AcksRefilling && !p.marks.precautionary }

  /** CRUISE ends exactly when probing is due; REFILL exactly after a round, and UP then
      starts from this sample's rate. */
  lemma CruiseRefillLaw(p: Probe, m: Model, x: Seen)
    requires !ProbeRejects(p, m, x) && x.s.delivered != x.s.prior
    ensures var v := Scheduled(p, m, x);
      && (m.phase == Cruise ==> v.phase == (if Due(p, m, x) then Refill else Cruise) && v.bw == m.bw)
      && (m.phase == Cruise && v.phase == Refill ==> Refilling(v.p, x.s))
      && (m.phase == Refill ==> v.phase == (if RoundPassed(p, x.s) then Up else Refill) && v.bw == m.bw)
      && (m.phase == Refill && v.phase == Up ==>
            v.p.upBw == x.s.rate && v.p.stagnant == 0 && v.p.ackPhase == AcksStarting && v.p.marks.sample)
  {
    hide BdpCeil3, BdpExactCeil, Waiting, Stopped, Probing;
  }

  /** DOWN starts now with two draws: zero or one round already counted, and a wait
      between two and three seconds. */
  predicate Drawn(p: Probe, random: bv32, now: u64, delivered: u64)
  {
    && p.random == Draw(Draw(random)) && p.rounds == (Draw(random) & 1) as int
    && p.wait == 2_000_000_000 + p.random as int % 1_000_000_000 && p.stamp == now && p.next == delivered
  }

  /** The generator never gets stuck at zero: each of its three shifts can be undone. */
  lemma DrawNonzero(v: bv32)
    ensures Draw(v) == 0 <==> v == 0
  {
    var a := v ^ (v << 13);
    var b := a ^ (a >> 17);
    ShiftsUndone(v, a, b);
  }

  lemma ShiftsUndone(v: bv32, a: bv32, b: bv32)
    ensures v ^ (v << 13) == 0 <==> v == 0
    ensures a ^ (a >> 17) == 0 <==> a == 0
    ensures b ^ (b << 5) == 0 <==> b == 0
  {
  }

  predicate Useful(s: Rate) { s.valid && !s.appLimited && s.rate != 0 }

  predicate GrewUp(p: Probe, s: Rate) { p.upBw == 0 || Grew(p.upBw, s.rate) }

  /** Rounds without growth, counting this one. */
  function FlatNow(p: Probe, s: Rate): nat
  { if GrewUp(p, s) then 0 else if RoundPassed(p, s) then Min(p.stagnant + 1, U32_MAX) else p.stagnant }

  /** UP ends exactly on excess loss or marking, on a flight that has reached a bound
      known to be too high, or on a plateau: three rounds without growth by a quarter,
      watched only while the window is not what holds the flow back. */
  lemma UpLaw(p: Probe, m: Model, x: Seen)
    requires !ProbeRejects(p, m, x) && x.s.delivered != x.s.prior && m.phase == Up
    ensures var v, bounded := Scheduled(p, m, x), x.longInflight != U64_MAX;
      var held := x.cwndLimited && bounded && x.cwnd >= x.longInflight;
      var tooHigh := p.marks.tooHigh && bounded && x.inflight >= x.longInflight;
      && v.phase == (if x.excess || tooHigh || (!held && Useful(x.s) && FlatNow(p, x.s) >= 3) then Down else Up)
      && (v.phase == Down ==>
            && v.p.marks.pending && v.p.marks.tooHigh == x.excess && !v.p.marks.sample
            && v.p.marks.precautionary == (p.marks.precautionary || (!x.excess && tooHigh))
            && v.p.ackPhase == AcksStopping && Drawn(v.p, p.random, x.now, x.s.delivered))
      && (v.phase == Up ==>
            v.p.ackPhase == if RoundPassed(p, x.s) && p.ackPhase == AcksStarting then AcksFeedback else p.ackPhase)
      && (v.phase == Up && held ==> v.p.upBw == x.s.rate && v.p.stagnant == 0)
      && (v.phase == Up && !held && Useful(x.s) ==>
            v.p.stagnant == FlatNow(p, x.s) && v.p.upBw == if GrewUp(p, x.s) then x.s.rate else p.upBw)
  {
    hide Waiting, Stopped, Plateaued, AtPlateau, FlatNow, GrewUp, Stop, Drawn;
    var q := Counted(p, x.s);
    var r := if NewRound(p, x.s) && q.ackPhase == AcksStarting then q.(ackPhase := AcksFeedback) else q;
    PlateauLaw(p, r, x);
    StopLaw(r, x, true, r.marks.precautionary);
    StopLaw(r, x, false, true);
    StopLaw(Plateaued(r, x, NewRound(p, x.s)), x, false, r.marks.precautionary);
  }

  lemma PlateauLaw(p: Probe, r: Probe, x: Seen)
    requires r.upBw == p.upBw && r.stagnant == p.stagnant
    ensures AtPlateau(r, x, NewRound(p, x.s)) <==> Useful(x.s) && FlatNow(p, x.s) >= 3
    ensures var q := Plateaued(r, x, NewRound(p, x.s));
      && q.random == r.random && q.ackPhase == r.ackPhase && q.marks == r.marks
      && (Useful(x.s) ==> q.stagnant == FlatNow(p, x.s) && q.upBw == if GrewUp(p, x.s) then x.s.rate else p.upBw)
  {
    hide Threshold, Grew;
    GrewExactly(p.upBw, x.s.rate);
  }

  lemma StopLaw(p: Probe, x: Seen, tooHigh: bool, precautionary: bool)
    ensures var q := Stop(p, x, tooHigh, precautionary);
      && q.marks.pending && q.marks.tooHigh == tooHigh && q.marks.precautionary == precautionary && !q.marks.sample
      && Drawn(q, p.random, x.now, x.s.delivered) && q.ackPhase == AcksStopping
  {
    hide Draw, Coin, Jitter;
    CoinIs(Draw(p.random));
    JitterIs(Draw(Draw(p.random)));
  }

  lemma CoinIs(v: bv32)
    ensures Coin(v) == (v & 1) as int
  {
  }

  lemma JitterIs(v: bv32)
    ensures Jitter(v) == v as int % 1_000_000_000
  {
  }

  /** DOWN: the first round after a probe ages the filter if it has feedback to digest,
      and retries at once a probe that stopped as a precaution; otherwise it probes when
      due and cruises once settled. */
  lemma DownLaw(p: Probe, m: Model, x: Seen)
    requires !ProbeRejects(p, m, x) && x.s.delivered != x.s.prior && m.phase == Down
    requires !ProbeFails(p, m, x.s)
    ensures var v, first := Scheduled(p, m, x), RoundPassed(p, x.s) && p.ackPhase == AcksStopping;
      var ages := first && p.marks.pending && x.s.valid && !x.s.appLimited;
      var retry := first && p.marks.precautionary && !p.marks.tooHigh;
      && (ages ==> m.bw.cycle < U32_MAX)
      && v.bw == (if ages then NextCycle(m.bw) else m.bw)
      && v.phase == (if retry || Due(p, m.(bw := v.bw), x) then Refill
                     else if Settled(m.(bw := v.bw), x) then Cruise else Down)
      && (v.phase == Refill ==> Refilling(v.p, x.s))
  {
    hide BdpCeil3, BdpExactCeil, WithHeadroom, Headroom, Probing, NextCycle, UpEntered;
    HeadroomIs(x.longInflight, x.mss);
  }

  // ------------------------------------------------------------------- congestion bounds

  /** More than so many per cent, exactly. */
  lemma MoreThanExact(part: u64, whole: u64, percent: u32)
    requires percent <= 100
    ensures MoreThan(part, whole, percent) <==> whole != 0 && 100 * part > percent * whole
  {
    hide Scale3;
    var x := whole * percent;
    MulNonNegative(whole, percent);
    MulMono(percent, 100, whole);
    assert percent * whole == x;
    assert x == 100 * (x / 100) + x % 100;
  }

  /** A probing sample reports excess on more than two per cent loss or more than half
      of its bytes marked, once per probe. */
  lemma ExcessLaw(c: Congestion, a: Ack)
    ensures Excess(c, a) <==>
      && a.flags.probeSample && !c.consumed
      && ((a.txInflight != 0 && 100 * a.lost > 2 * a.txInflight)
          || (a.flags.ecnEligible && a.acked != 0 && 100 * a.ce > 50 * a.acked))
  {
    hide MoreThan;
    MoreThanExact(a.lost, a.txInflight, 2);
    MoreThanExact(a.ce, a.acked, 50);
  }

  /** What a round has seen, this ACK included. */
  datatype Evidence = Evidence(bw: u64, inflight: u64, loss: bool, marks: bool, alpha: Alpha)

  function Seen3(c: Congestion, x: Signal, a: Ack): Evidence
  {
    Evidence(Max(c.latestBw, x.rate), Max(c.latestInflight, x.sampled), c.lossSeen || a.lost != 0,
             c.ecn.seen || a.ce != 0, Blended(Gathered(c, x, a).ecn).alpha)
  }

  function SevenTenths(v: u64): int { v * 7 / 10 }

  function Known(bound: u64, otherwise: u64): u64 { if bound == U64_MAX then otherwise else bound }

  /** The in-flight bound after the loss cut and the marking cut, in that order. */
  function ShortInflight(c: Congestion, x: Signal, eligible: bool, e: Evidence): int
  {
    var lossy := if e.loss then Max(e.inflight, SevenTenths(Known(c.shortInflight, x.cwnd))) else c.shortInflight;
    if e.marks && eligible
    then Known(lossy, x.cwnd) * (256 - e.alpha * 85 / 256) / 256
    else lossy
  }

  /** The end of a round outside bandwidth probing: loss takes each short-term bound
      (or what stands in for one) to seven tenths, never below what the round delivered;
      marks take up to a third of alpha more off the in-flight bound. The round's
      evidence starts afresh. */
  lemma RoundLaw(c: Congestion, x: Signal, a: Ack)
    requires x.mss > 0 && a.flags.roundEnd
    ensures var d, e := Congested(c, x, a), Seen3(c, x, a);
      && d.shortBw == (if !x.probing && e.loss then Max(1, Max(e.bw, SevenTenths(Known(c.shortBw, x.maxBw))))
                       else c.shortBw)
      && d.shortInflight == (if !x.probing then ShortInflight(c, x, a.flags.ecnEligible, e) else c.shortInflight)
      && d.ecn == Ecn(0, 0, e.alpha, false) && !d.lossSeen && d.latestBw == x.rate && d.latestInflight == x.sampled
  {
    hide Raised, Scale3, Measured, Excess, Blended, Probed;
    var g := Gathered(c, x, a);
    ProbedLaw(g, x, a);
    var p := Probed(g, x, a);
    var e := Blended(g.ecn);
    BlendedKeeps(g.ecn);
    TenthsIs(Known(c.shortBw, x.maxBw));
    TenthsIs(Known(c.shortInflight, x.cwnd));
    var lossy := if !x.probing && g.lossSeen then Max(g.latestInflight, SevenTenths(Known(c.shortInflight, x.cwnd)))
                 else c.shortInflight;
    MarkIs(Known(lossy, x.cwnd), e.alpha);
  }

  lemma BlendedKeeps(e: Ecn)
    ensures Blended(e) == e.(alpha := Blended(e).alpha)
  {
    hide Measured;
  }

  lemma TenthsIs(v: u64)
    ensures Scale3(v, 7, 10) == SevenTenths(v)
  {
    hide Scale3;
  }

  lemma MarkIs(v: u64, alpha: Alpha)
    ensures 0 <= alpha * 85 / 256 <= 85
    ensures Min(v, Scale3(v, 256 - Cut(alpha), 256)) == v * (256 - alpha * 85 / 256) / 256
  {
    hide Scale3;
    var keep := 256 - alpha * 85 / 256;
    MulMono(keep, 256, v);
    DivMono(v * keep, v * 256 + 0, 256);
    DivOfMultiplePlus(v, 0, 256);
    MulNonNegative(v, keep);
  }

  /** Alpha is the one-sixteenth moving average of the marked fraction of the round,
      which a round of more than 32 bits of bytes divides in another order. */
  lemma AlphaLaw(e: Ecn)
    ensures e.delivered == 0 ==> Blended(e).alpha == e.alpha
    ensures e.delivered != 0 ==>
      var marked := if e.delivered <= U32_MAX then e.ce * 256 / e.delivered else e.ce / (e.delivered / 256);
      0 <= marked && Blended(e).alpha == (15 * e.alpha + Min(marked, 256)) / 16
  {
    hide Scale3;
    if e.delivered != 0 {
      DivFacts(e.ce * 256, e.delivered);
      if e.delivered > U32_MAX { DivFacts(e.ce, e.delivered / 256); }
    }
  }

  /** Within a round the evidence only accumulates. */
  lemma WithinRound(c: Congestion, x: Signal, a: Ack)
    requires x.mss > 0 && !a.flags.roundEnd
    ensures var d, e := Congested(c, x, a), Seen3(c, x, a);
      && d.shortBw == c.shortBw && d.shortInflight == c.shortInflight
      && d.latestBw == e.bw && d.latestInflight == e.inflight && d.lossSeen == e.loss && d.ecn.seen == e.marks
      && (a.flags.ecnEligible ==>
            d.ecn.delivered == Clip(c.ecn.delivered + a.acked) && d.ecn.ce == Clip(c.ecn.ce + a.ce))
  {
    hide Raised, Scale3, Measured, Excess, Blended, Probed;
    ProbedLaw(Gathered(c, x, a), x, a);
  }

  /** The long-term bound: on excess it becomes what was in flight when the sample was
      sent, but not below seven tenths of the target; a probing sample without excess
      raises it to what was in flight, and then by the growth of UP. */
  lemma LongLaw(c: Congestion, x: Signal, a: Ack)
    requires x.mss > 0
    ensures var d := Congested(c, x, a);
      if !a.flags.probeSample || c.consumed then d.longInflight == c.longInflight && d.growth == c.growth
      else if Excess(c, a) then
        d.consumed
        && d.longInflight == if x.appLimited then c.longInflight else Max(a.txInflight, SevenTenths(x.target))
      else if c.longInflight == U64_MAX then d.longInflight == U64_MAX && !d.consumed
      else
        var raised := Raised(c.(longInflight := Max(c.longInflight, a.txInflight)), x, a.acked, a.flags.cwndLimited);
        d.longInflight == raised.longInflight && d.growth == raised.growth && !d.consumed
  {
    hide Scale3, MoreThan, RoundFinished, Pow2;
    var g := Gathered(c, x, a);
    TenthsIs(x.target);
    FinishedLong(Probed(g, x, a), x, a.flags.ecnEligible);
  }

  lemma FinishedLong(c: Congestion, x: Signal, eligible: bool)
    ensures var d := RoundFinished(c, x, eligible);
      d.longInflight == c.longInflight && d.growth == c.growth && d.consumed == c.consumed
  {
    hide Scale3, Measured;
  }

  /** UP growth conserves acknowledged bytes: a segment is added for each full
      increment, the rest is carried over, and each round halves the increment. */
  lemma GrowthLaw(c: Congestion, x: Signal, acked: u32, cwndLimited: bool)
    requires x.mss > 0
    ensures var d, total := Raised(c, x, acked, cwndLimited), Clip(c.growth.acked + acked);
      if !x.probeUp || !cwndLimited || c.longInflight == U64_MAX || x.cwnd < c.longInflight then d == c else
      var step := if c.growth.perInc == 0 then Max(x.mss, x.cwnd) else c.growth.perInc;
      && 0 <= d.growth.acked < step && (total - d.growth.acked) % step == 0
      && 0 <= (total - d.growth.acked) / step * x.mss
      && d.longInflight == Clip(c.longInflight + (total - d.growth.acked) / step * x.mss)
      && d.growth.perInc == (if x.roundStart then Max(x.mss, x.cwnd / Pow2(Min(c.growth.rounds, 30))) else step)
      && d.growth.rounds == (if x.roundStart && c.growth.rounds < 30 then c.growth.rounds + 1 else c.growth.rounds)
  {
    hide Pow2;
    if x.probeUp && cwndLimited && c.longInflight != U64_MAX && x.cwnd >= c.longInflight {
      var step := if c.growth.perInc == 0 then Max(x.mss, x.cwnd) else c.growth.perInc;
      var total := Clip(c.growth.acked + acked);
      WholeSteps(total, step);
      MulNonNegative(total / step, x.mss);
    }
  }

  lemma WholeSteps(total: nat, step: nat)
    requires step > 0
    ensures (total - total % step) / step == total / step && (total - total % step) % step == 0
    ensures 0 <= total / step <= total && 0 <= total % step < step
  {
    DivOfMultiplePlus(total / step, 0, step);
    assert total == (total / step) * step + total % step;
    DivFacts(total, step);
  }

  /** What the congestion model is told about an ACK: Startup, REFILL and UP count as
      probing, and the target is that of the new estimates. */
  function Told(s: State, a: Ack): Signal
  {
    hide Target, Estimated;
    var m, p := s.(model := Estimated(s.model, a.rate, a.now)), s.model.phase;
    TargetIs(m);
    Signal(a.rate.rate, m.model.bw.max, a.rate.sampled, s.cwnd, Target(m), s.conf.mss, a.rate.appLimited,
           p == Startup || p == Refill || p == Up, p == Up, Opens(s, a.rate))
  }

  /** The bounds after a whole ACK are the congestion model's, except that a new probe
      and the end of ProbeRTT lift the short-term ones; a new probe also rearms the
      excess signal and restarts the growth of UP. */
  lemma AckBounds(s: State, a: Ack)
    requires Ok(s) && (a.rate.valid ==> a.rate.rate != 0) && !Malformed(s, a)
    ensures var r, c := AckStep(s, a).s, Congested(s.cong, Told(s, a), a);
      var probes := s.model.phase != Refill && r.model.phase == Refill;
      && (probes ==>
            r.cong == c.(shortBw := U64_MAX, shortInflight := U64_MAX, consumed := false, growth := Growth(0, 0, 0)))
      && (LeftProbeRtt(s, r) ==> r.cong == c.(shortBw := U64_MAX, shortInflight := U64_MAX))
      && (!probes && !LeftProbeRtt(s, r) && (r.model.phase == ProbeRTT ==> s.model.phase == ProbeRTT) ==> r.cong == c)
  {
    hide AckStep, Before, Advanced, Estimated, PhaseOk, Fed, Malformed, Congested, Told, Concluded;
    AckShape(s, a);
    WellFormed(s, a);
    var g := Before(s, a);
    BeforeFrame(s, a);
    EstimatesKept(s.model, s.probe, a.rate, a.now);
    BeforeBounds(s, a);
    AdvancedBounds(g, a, ExcessOf(s, a));
    AdvancedFrame(g, a, ExcessOf(s, a));
    ConcludedBounds(Advanced(g, a, ExcessOf(s, a)), a);
  }

  lemma BeforeBounds(s: State, a: Ack)
    requires s.conf.mss > 0 && s.agg.stamp <= a.now
    ensures Told(s, a).mss > 0 && Before(s, a).cong == Congested(s.cong, Told(s, a), a)
  {
    hide Congested, Aggregated, Inflight, Target, RttUpdated, PipeUpdated, BwUpdated;
    TargetIs(s.(model := Estimated(s.model, a.rate, a.now)));
  }

  lemma AdvancedBounds(s: State, a: Ack, excess: bool)
    requires MidOk(s, a) && s.cwnd > 0 && a.rate.prior <= a.rate.delivered
    ensures var r := Advanced(s, a, excess);
      var probes := s.model.phase != Refill && r.model.phase == Refill;
      && (probes ==> r.cong == BeganProbe(s.cong))
      && (LeftProbeRtt(s, r) ==> r.cong == ResetShort(s.cong))
      && (!probes && !LeftProbeRtt(s, r) && (r.model.phase == ProbeRTT ==> s.model.phase == ProbeRTT) ==>
            r.cong == s.cong)
  {
    hide Drained, ProbeStep, HoldEntered, Held, PhaseOk, Fed, NextCycle, BeganProbe, ResetShort;
    DrainedKept(s, a);
    DrainedFrame(s, a);
    DrainedRtts(s, a);
    DrainedBounds(s, a);
    var d := Drained(s, a);
    var p := if InProbeBW(s.model.phase) then ProbeStep(d, a, excess) else d;
    if InProbeBW(s.model.phase) {
      ProbeStepKept(d, a, excess);
      ProbeStepFrame(d, a, excess);
      ProbeAges(d, a, excess);
      ProbeBounds(d, a, excess);
    }
    HoldBounds(p, a);
  }

  lemma DrainedBounds(s: State, a: Ack)
    ensures var d := Drained(s, a);
      d.cong == s.cong && (d.model.phase == s.model.phase || d.model.phase == Drain || d.model.phase == Down)
  {
    hide BdpFloor, Entered, EnterRejects;
  }

  lemma ProbeBounds(s: State, a: Ack, excess: bool)
    ensures var p := ProbeStep(s, a, excess);
      p.cong == if s.model.phase != Refill && p.model.phase == Refill then BeganProbe(s.cong) else s.cong
  {
    hide SeenBy, BeganProbe, ProbeRejects, Scheduled;
  }

  lemma HoldBounds(s: State, a: Ack)
    requires LateOk(s, a)
    ensures var n := Held(HoldEntered(s, a), a);
      && (n.cong == if LeftProbeRtt(s, n) then ResetShort(s.cong) else s.cong)
      && (n.model.phase != ProbeRTT && s.model.phase != ProbeRTT ==> n.model.phase == s.model.phase)
      && (LeftProbeRtt(s, n) ==> n.model.phase == Cruise || n.model.phase == Startup)
  {
    hide RttTarget, SatAdd, Entered, BdpFloor, PhaseOk, Released, ResetShort;
    HoldEnteredKept(s, a);
    var h := HoldEntered(s, a);
    var done := h.hold.roundDone || (a.rate.prior >= h.hold.roundDelivered && a.rate.delivered > a.rate.prior);
    var released := h.(hold := h.hold.(roundDone := done));
    if h.model.phase == ProbeRTT {
      ReleasedKept(released, a);
      ReleasedBounds(released, a);
    }
  }

  lemma ReleasedBounds(s: State, a: Ack)
    ensures Released(s, a).cong == ResetShort(s.cong)
  {
    hide Entered, EnterRejects, ResetShort;
  }
}
