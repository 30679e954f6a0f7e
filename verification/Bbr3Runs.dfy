/** BBRv3 over whole runs: an ACK is handled all or nothing, the window obeys its
    bounds, the calls whose results are discarded cannot fail, and the phase
    machine keeps its promises. */
module Bbr3Runs {
  import opened Words
  import opened Scaling
  import opened RoundRing
  import opened Bbr3Model

  // ------------------------------------------------------------------------- all or nothing

  predicate ConfOk(c: Conf) { 0 < c.mss <= U32_MAX / 4 && c.initialCwnd >= 4 * c.mss && c.seed != 0 }

  predicate Sized(s: State) { ConfOk(s.conf) && s.cwnd >= 4 * s.conf.mss && s.pacing != 0 }

  /** The state handed to the phase machine, after the estimators, the congestion
      model and the aggregation filter have seen the ACK. */
  function Before(s: State, a: Ack): State
    requires s.conf.mss > 0 && s.agg.stamp <= a.now
  {
    hide Congested, Aggregated, Estimated;
    var m := s.(model := Estimated(s.model, a.rate, a.now));
    var c := m.(cong := Congested(s.cong, SignalOf(m, s.model.phase, a), a));
    c.(agg := Aggregated(c, a))
  }

  function ExcessOf(s: State, a: Ack): bool
  {
    hide Estimated;
    Excess(Gathered(s.cong, SignalOf(s.(model := Estimated(s.model, a.rate, a.now)), s.model.phase, a), a), a)
  }

  /** After the guard neither sub-step can reject: the rest always runs to the end. */
  lemma AckShape(s: State, a: Ack)
    requires Sized(s)
    ensures Malformed(s, a) ==> AckStep(s, a) == Rejected(s)
    ensures !Malformed(s, a) ==> AckStep(s, a) == Concluded(Advanced(Before(s, a), a, ExcessOf(s, a)), a)
  {
    hide Estimated, Congested, Aggregated, Advanced, Concluded, Inflight, Gathered, Excess;
  }

  lemma CapAtLeast(c: Congestion, p: Phase, mss: u32)
    requires mss > 0
    ensures CwndCap(c, p, mss) >= 4 * mss
  {
    hide WithHeadroom;
  }

  lemma ConcludedBounds(s: State, a: Ack)
    requires ConfOk(s.conf) && s.pacing != 0
    ensures var r := Concluded(s, a);
      && r.Accepted? && Sized(r.s) && r.s == s.(cwnd := r.policy.cwnd, pacing := r.policy.pacing)
           && r.policy.phase == s.model.phase
      && 4 * s.conf.mss <= r.policy.cwnd <= CwndCap(s.cong, s.model.phase, s.conf.mss)
      && (s.model.phase == ProbeRTT ==> r.policy.cwnd <= RttTarget(s))
      && r.policy.pacing != 0 && 2 * s.conf.mss <= r.policy.quantum
  {
    hide CwndCap, Inflight, RttTarget, PacingGain, Scale3;
    CapAtLeast(s.cong, s.model.phase, s.conf.mss);
    TargetAtLeast(s);
  }

  lemma TargetAtLeast(s: State)
    ensures RttTarget(s) >= 4 * s.conf.mss
  {
    hide BdpFloor;
  }

  /** What the phase machine leaves alone: the configuration, the pacing rate, the
      estimators' rounds and full-pipe state; and it never lowers the window. */
  predicate Same(s: State, t: State)
  {
    && t.conf == s.conf && t.pacing == s.pacing && t.agg == s.agg && t.cwnd >= s.cwnd
         && t.model.rounds == s.model.rounds
    && t.model.pipe == s.model.pipe && t.model.lastUpdate == s.model.lastUpdate
         && t.model.hasUpdate == s.model.hasUpdate
  }

  lemma AdvancedFrame(s: State, a: Ack, excess: bool)
    ensures Same(s, Advanced(s, a, excess))
  {
    hide Drained, ProbeStep, HoldEntered, Held;
    var d := Drained(s, a);
    DrainedFrame(s, a);
    var p := if InProbeBW(s.model.phase) then ProbeStep(d, a, excess) else d;
    ProbeStepFrame(d, a, excess);
    HoldFrame(p, a);
    HeldFrame(HoldEntered(p, a), a);
  }

  lemma DrainedFrame(s: State, a: Ack)
    ensures Same(s, Drained(s, a))
  {
    hide BdpFloor, EnterRejects, Entered;
  }

  lemma ProbeStepFrame(s: State, a: Ack, excess: bool)
    ensures Same(s, ProbeStep(s, a, excess))
  {
    hide ProbeRejects, Scheduled, SeenBy;
  }

  lemma HoldFrame(s: State, a: Ack)
    ensures Same(s, HoldEntered(s, a))
  {
  }

  lemma HeldFrame(s: State, a: Ack)
    ensures Same(s, Held(s, a))
  {
    hide RttTarget, Released, SatAdd;
    var done := s.hold.roundDone || (a.rate.prior >= s.hold.roundDelivered && a.rate.delivered > a.rate.prior);
    ReleasedFrame(s.(hold := s.hold.(roundDone := done)), a);
  }

  lemma ReleasedFrame(s: State, a: Ack)
    ensures Same(s, Released(s, a))
  {
    hide EnterRejects, Entered;
  }

  /** All or nothing: an ACK is accepted if and only if it is well formed; rejected,
      it leaves the whole state as it was; accepted, the published window lies
      between four segments and the cap of the phase the ACK ends in (and below
      half the BDP or four segments in ProbeRTT), and the pacing rate is not zero. */
  lemma AllOrNothing(s: State, a: Ack)
    requires Sized(s)
    ensures var r := AckStep(s, a);
      && (r.Accepted? <==> !Malformed(s, a)) && (r.Rejected? ==> r.s == s)
      && (r.Accepted? ==>
            && Sized(r.s) && r.s.conf == s.conf && r.policy.phase == r.s.model.phase
            && r.policy.cwnd == r.s.cwnd && r.policy.pacing == r.s.pacing != 0
            && 4 * s.conf.mss <= r.policy.cwnd <= CwndCap(r.s.cong, r.s.model.phase, s.conf.mss)
            && (r.s.model.phase == ProbeRTT ==> r.policy.cwnd <= RttTarget(r.s)))
  {
    hide AckStep, Before, Advanced, Concluded, CwndCap, RttTarget, Malformed;
    AckShape(s, a);
    if !Malformed(s, a) {
      WellFormed(s, a);
      var g := Before(s, a);
      var t := Advanced(g, a, ExcessOf(s, a));
      BeforeFrame(s, a);
      AdvancedFrame(g, a, ExcessOf(s, a));
      ConcludedBounds(t, a);
      TargetSame(t, Concluded(t, a).s);
    }
  }

  lemma WellFormed(s: State, a: Ack)
    requires !Malformed(s, a)
    ensures s.agg.stamp <= a.now && s.model.lastUpdate <= a.now && a.now != 0 && a.rate.valid
        && a.rate.prior <= a.rate.delivered
  {
  }

  lemma TargetSame(s: State, t: State)
    requires t.model == s.model && t.conf == s.conf
    ensures RttTarget(t) == RttTarget(s)
  {
    hide BdpFloor;
  }

  lemma BeforeFrame(s: State, a: Ack)
    requires s.conf.mss > 0 && s.agg.stamp <= a.now
    ensures var g := Before(s, a);
      && g.conf == s.conf && g.pacing == s.pacing && g.cwnd == s.cwnd && g.probe == s.probe
      && g.model == Estimated(s.model, a.rate, a.now)
  {
    hide Congested, Aggregated, Estimated, Inflight;
  }

  // -------------------------------------------------------------------------- the phase machine

  predicate RttsOk(r: Rtts) { (r.hasMin ==> r.min != 0) && (r.hasProbe ==> r.probe != 0) }

  predicate BwOk(b: Bw) { b.max == Max(b.even, b.odd) }

  function CurrentSlot(b: Bw): u64 { if b.cycle % 2 == 0 then b.even else b.odd }

  predicate PhaseOk(m: Model, p: Probe)
  {
    && RttsOk(m.rtts) && BwOk(m.bw) && (m.pipe.full ==> m.bw.max != 0)
    && (InProbeBW(m.phase) ==> p.marks.initialized && m.pipe.full && m.rtts.hasMin)
    && (m.phase == Startup || m.phase == Drain ==> !p.marks.initialized)
    && (m.phase == Drain ==> m.pipe.full)
    && (m.phase == ProbeRTT ==> m.rtts.hasMin && (p.marks.initialized ==> m.pipe.full))
    && (p.marks.initialized ==> p.stamp <= m.lastUpdate)
    && (m.phase == Down || m.phase == Cruise ==> p.rounds < RENO_MAX_ROUNDS)
    && (m.phase == Down && p.ackPhase == AcksStopping ==> p.rounds <= 1)
  }

  predicate Ok(s: State) { Sized(s) && PhaseOk(s.model, s.probe) }

  /** A sample good enough to age the filter has just filled the current cycle. */
  predicate Fed(m: Model, s: Rate) { s.valid && !s.appLimited ==> CurrentSlot(m.bw) != 0 }

  lemma EstimatesKept(m: Model, p: Probe, s: Rate, now: u64)
    requires PhaseOk(m, p) && m.lastUpdate <= now && s.valid && s.rate != 0
    ensures var n := Estimated(m, s, now);
      PhaseOk(n, p) && n.bw.max != 0 && Fed(n, s) && n.lastUpdate == now && n.bw.cycle == m.bw.cycle
          && n.phase == m.phase
  {
    hide RttUpdated, PipeUpdated;
    RttKept(m.rtts, s, now);
    PipeKept(m.pipe, RoundUpdated(m.rounds, s).start, BwUpdated(m.bw, s).max, s);
  }

  lemma RttKept(r: Rtts, s: Rate, now: u64)
    requires RttsOk(r)
    ensures RttsOk(RttUpdated(r, s, now)) && (r.hasMin ==> RttUpdated(r, s, now).hasMin)
  {
    hide Elapsed;
  }

  lemma PipeKept(p: Pipe, start: bool, bw: u64, s: Rate)
    ensures p.full ==> PipeUpdated(p, start, bw, s).full
    ensures PipeUpdated(p, start, bw, s).full && !p.full ==> bw != 0
  {
    hide Threshold;
  }

  /** The state between the stages of an ACK at time `now`. */
  predicate MidOk(s: State, a: Ack)
  {
    && PhaseOk(s.model, s.probe) && s.model.bw.max != 0 && Fed(s.model, a.rate)
    && s.model.lastUpdate == a.now != 0 && ConfOk(s.conf)
  }

  lemma EnteredFacts(now: u64, delivered: u64, seed: bv32)
    ensures var p := Entered(now, delivered, seed);
      p.marks.initialized && p.stamp == now && p.rounds <= 1 && WAIT_BASE <= p.wait < WAIT_BASE + WAIT_JITTER
  {
    hide Draw, Coin, Jitter;
    CoinSmall(Draw(seed));
  }

  lemma CoinSmall(v: bv32)
    ensures Coin(v) <= 1
  {
  }

  /** In Drain with an RTT, entering ProbeBW cannot fail. */
  lemma DrainedKept(s: State, a: Ack)
    requires MidOk(s, a)
    ensures MidOk(Drained(s, a), a) && Drained(s, a).model.bw == s.model.bw && Drained(s, a).cwnd == s.cwnd
    ensures s.model.pipe.full && (s.model.phase == Startup || s.model.phase == Drain) && s.model.rtts.hasMin ==>
      !EnterRejects(s.probe, s.model, a.now, s.conf.seed)
    ensures InProbeBW(s.model.phase) ==> Drained(s, a) == s
  {
    hide BdpFloor, Entered;
    EnteredFacts(a.now, a.rate.delivered, s.conf.seed);
  }

  lemma DownFacts(p: Probe, now: u64, delivered: u64)
    ensures var q := DownEntered(p, now, delivered);
      && q.marks.initialized == p.marks.initialized && q.stamp == now && q.rounds <= 1
      && WAIT_BASE <= q.wait < WAIT_BASE + WAIT_JITTER
  {
    hide Draw, Coin, Jitter;
    CoinSmall(Draw(p.random));
  }

  /** What the scheduler may return. */
  predicate MovedOk(v: Moved, p: Probe, now: u64)
  {
    && InProbeBW(v.phase) && BwOk(v.bw) && v.bw.max != 0
    && v.p.marks.initialized == p.marks.initialized && v.p.stamp <= now
    && (v.phase == Down || v.phase == Cruise ==> v.p.rounds < RENO_MAX_ROUNDS)
    && (v.phase == Down && v.p.ackPhase == AcksStopping ==> v.p.rounds <= 1)
  }

  /** The only ACK the scheduler fails on: in the first round after probing, with
      feedback pending, a full-strength sample finds the cycle counter at its end. */
  predicate ProbeFails(p: Probe, m: Model, s: Rate)
  {
    && m.phase == Down && p.ackPhase == AcksStopping && s.delivered != s.prior && NewRound(p, s)
    && p.marks.pending && s.valid && !s.appLimited && m.bw.cycle == U32_MAX
  }

  lemma CountedFacts(p: Probe, s: Rate)
    ensures var q := Counted(p, s);
      && q.marks == p.marks && q.stamp == p.stamp && q.ackPhase == p.ackPhase && q.wait == p.wait
      && q.rounds <= p.rounds + 1 && (!NewRound(p, s) ==> q == p)
  {
  }

  lemma RefillFacts(p: Probe, delivered: u64)
    ensures var q := RefillEntered(p, delivered); q.marks.initialized == p.marks.initialized && q.stamp == p.stamp
  {
  }

  lemma RenoBound(m: Model, cwnd: u32, mss: u32)
    requires mss > 0
    ensures RenoWait(m, cwnd, mss) <= RENO_MAX_ROUNDS
  {
    hide BdpCeil3;
  }

  lemma WaitingKept(p: Probe, m: Model, x: Seen)
    requires BwOk(m.bw) && m.bw.max != 0 && x.mss > 0 && p.stamp <= x.now
    requires p.ackPhase == AcksStopping ==> p.rounds <= 1
    ensures MovedOk(Waiting(p, m, x), p, x.now) && Waiting(p, m, x).ok
  {
    hide RenoWait, Elapsed, TimeToCruise, RefillEntered;
    RefillFacts(p, x.s.delivered);
    RenoBound(m, x.cwnd, x.mss);
  }

  /** Ageing the filter leaves exactly the current cycle's maximum: the estimate
      survives if and only if that cycle has seen a rate. */
  lemma NextCycleKeeps(b: Bw)
    requires b.cycle < U32_MAX
    ensures BwOk(NextCycle(b)) && NextCycle(b).max == CurrentSlot(b) && NextCycle(b).cycle == b.cycle + 1
  {
  }

  lemma StoppedKept(p: Probe, m: Model, x: Seen)
    requires BwOk(m.bw) && m.bw.max != 0 && Fed(m, x.s) && x.mss > 0 && p.stamp <= x.now && p.rounds <= 2
    ensures MovedOk(Stopped(p, m, x), p, x.now)
    ensures Stopped(p, m, x).ok <==> !(p.marks.pending && x.s.valid && !x.s.appLimited && m.bw.cycle == U32_MAX)
  {
    hide Waiting, RefillEntered, TimeToProbe, NextCycle;
    var ages := p.marks.pending && !x.s.appLimited && x.s.valid;
    if !(ages && m.bw.cycle == U32_MAX) {
      if ages { NextCycleKeeps(m.bw); }
      var bw := if ages then NextCycle(m.bw) else m.bw;
      var r := p.(ackPhase := AcksInit, marks := p.marks.(pending := false));
      RefillFacts(r, x.s.delivered);
      WaitingKept(r, m.(bw := bw), x);
    }
  }

  lemma ProbingKept(p: Probe, m: Model, x: Seen, newRound: bool)
    requires BwOk(m.bw) && m.bw.max != 0 && p.stamp <= x.now
    ensures MovedOk(Probing(p, m, x, newRound), p, x.now) && Probing(p, m, x, newRound).ok
  {
    hide Plateaued, AtPlateau, DownEntered;
    var q := if newRound && p.ackPhase == AcksStarting then p.(ackPhase := AcksFeedback) else p;
    StopFacts(q, x, true, q.marks.precautionary);
    StopFacts(q, x, false, true);
    PlateauFacts(q, x, newRound);
    StopFacts(Plateaued(q, x, newRound), x, false, q.marks.precautionary);
  }

  lemma StopFacts(p: Probe, x: Seen, tooHigh: bool, precautionary: bool)
    ensures var q := Stop(p, x, tooHigh, precautionary);
      q.marks.initialized == p.marks.initialized && q.stamp == x.now && q.rounds <= 1
  {
    hide DownEntered;
    DownFacts(p.(marks := p.marks.(tooHigh := tooHigh, precautionary := precautionary, pending := true)), x.now,
        x.s.delivered);
  }

  lemma PlateauFacts(p: Probe, x: Seen, newRound: bool)
    ensures var q := Plateaued(p, x, newRound); q.marks == p.marks && q.stamp == p.stamp
  {
    hide Threshold;
  }

  /** The scheduler keeps the bandwidth estimate and leaves DOWN and CRUISE before
      their 63rd round, and says exactly when it fails. */
  lemma ScheduledKept(p: Probe, m: Model, x: Seen)
    requires PhaseOk(m, p) && InProbeBW(m.phase) && m.bw.max != 0 && Fed(m, x.s)
    requires x.mss > 0 && p.stamp <= x.now
    ensures MovedOk(Scheduled(p, m, x), p, x.now)
    ensures Scheduled(p, m, x).ok <==> !ProbeFails(p, m, x.s)
  {
    hide Waiting, Stopped, Probing, RefillEntered, UpEntered, TimeToProbe, Counted, BwOk;
    BwFacts(m.bw, m, p);
    var newRound, q := NewRound(p, x.s), Counted(p, x.s);
    CountedFacts(p, x.s);
    if m.phase == Down {
      if newRound && q.ackPhase == AcksStopping { StoppedKept(q, m, x); } else { WaitingKept(q, m, x); }
    }
    ProbingKept(q, m, x, newRound);
    RefillFacts(q, x.s.delivered);
    UpFacts(q, x.s);
    CruiseBound(q, m, x);
  }

  lemma BwFacts(b: Bw, m: Model, p: Probe)
    requires PhaseOk(m, p) && b == m.bw
    ensures BwOk(b)
  {
  }

  lemma UpFacts(p: Probe, s: Rate)
    ensures UpEntered(p, s).marks.initialized == p.marks.initialized && UpEntered(p, s).stamp == p.stamp
  {
  }

  lemma CruiseBound(p: Probe, m: Model, x: Seen)
    requires x.mss > 0
    ensures !TimeToProbe(p, m, x) ==> p.rounds < RENO_MAX_ROUNDS
  {
    hide RenoWait, Elapsed;
    RenoBound(m, x.cwnd, x.mss);
  }

  /** DOWN and CRUISE are left in time: an ACK of new data that stays in them has
      counted fewer rounds than Reno would wait and less than the drawn wait. */
  lemma LeavesInTime(p: Probe, m: Model, x: Seen)
    requires !ProbeRejects(p, m, x) && x.s.delivered != x.s.prior && (m.phase == Down || m.phase == Cruise)
    ensures var v := Scheduled(p, m, x);
      v.ok && v.phase != Refill ==>
        && v.p.rounds < RenoWait(m.(bw := v.bw), x.cwnd, x.mss) <= RENO_MAX_ROUNDS
        && v.p.stamp == p.stamp && v.p.wait == p.wait && x.now - p.stamp <= p.wait
  {
    hide Waiting, Stopped, Probing, RefillEntered, UpEntered, Counted, RenoWait;
    var q := Counted(p, x.s);
    CountedFacts(p, x.s);
    WaitingTimely(q, m, x);
    StoppedTimely(q, m, x);
    var v := Scheduled(p, m, x);
    RenoBound(m.(bw := v.bw), x.cwnd, x.mss);
  }

  lemma WaitingTimely(p: Probe, m: Model, x: Seen)
    requires x.mss > 0
    ensures var v := Waiting(p, m, x); v.phase != Refill ==> v.p == p && v.bw == m.bw && !TimeToProbe(p, m, x)
  {
    hide RenoWait, Elapsed, TimeToCruise, RefillEntered;
  }

  lemma StoppedTimely(p: Probe, m: Model, x: Seen)
    requires x.mss > 0
    ensures var v := Stopped(p, m, x);
      v.ok && v.phase != Refill ==>
        && v.p.stamp == p.stamp && v.p.wait == p.wait && v.p.rounds == p.rounds
        && !TimeToProbe(v.p, m.(bw := v.bw), x)
  {
    hide Waiting, RefillEntered, TimeToProbe, NextCycle;
    var ages := p.marks.pending && !x.s.appLimited && x.s.valid;
    if !(ages && m.bw.cycle == U32_MAX) {
      var bw := if ages then NextCycle(m.bw) else m.bw;
      WaitingTimely(p.(ackPhase := AcksInit, marks := p.marks.(pending := false)), m.(bw := bw), x);
    }
  }

  lemma ProbeStepKept(s: State, a: Ack, excess: bool)
    requires MidOk(s, a) && InProbeBW(s.model.phase) && s.cwnd > 0 && a.rate.prior <= a.rate.delivered
    ensures !ProbeRejects(s.probe, s.model, SeenBy(s, a, excess))
    ensures Scheduled(s.probe, s.model, SeenBy(s, a, excess)).ok <==> !ProbeFails(s.probe, s.model, a.rate)
    ensures PhaseOk(ProbeStep(s, a, excess).model, ProbeStep(s, a, excess).probe)
        && ProbeStep(s, a, excess).model.bw.max != 0
  {
    hide Scheduled, BeganProbe;
    ScheduledKept(s.probe, s.model, SeenBy(s, a, excess));
  }

  /** Between the scheduler and the ProbeRTT hold the filter may just have aged. */
  predicate LateOk(s: State, a: Ack)
  { PhaseOk(s.model, s.probe) && s.model.bw.max != 0 && s.model.lastUpdate == a.now != 0 && ConfOk(s.conf) }

  lemma HoldEnteredKept(s: State, a: Ack)
    requires LateOk(s, a)
    ensures LateOk(HoldEntered(s, a), a) && HoldEntered(s, a).model.bw == s.model.bw
  {
  }

  /** Leaving ProbeRTT with a full pipe, entering ProbeBW cannot fail. */
  lemma ReleasedKept(s: State, a: Ack)
    requires LateOk(s, a) && s.model.phase == ProbeRTT
    ensures LateOk(Released(s, a), a) && Released(s, a).model.phase != ProbeRTT
    ensures Released(s, a).model.phase == if s.model.pipe.full then Cruise else Startup
  {
    hide Entered;
    EnteredFacts(a.now, a.rate.delivered, s.conf.seed);
  }

  lemma HeldKept(s: State, a: Ack)
    requires LateOk(s, a)
    ensures LateOk(Held(s, a), a)
  {
    hide RttTarget, Released, SatAdd;
    var done := s.hold.roundDone || (a.rate.prior >= s.hold.roundDelivered && a.rate.delivered > a.rate.prior);
    if s.model.phase == ProbeRTT { ReleasedKept(s.(hold := s.hold.(roundDone := done)), a); }
  }

  lemma AdvancedKept(s: State, a: Ack, excess: bool)
    requires MidOk(s, a) && s.cwnd > 0 && a.rate.prior <= a.rate.delivered
    ensures LateOk(Advanced(s, a, excess), a)
  {
    hide Drained, ProbeStep, HoldEntered, Held, PhaseOk, Fed;
    DrainedKept(s, a);
    DrainedFrame(s, a);
    var d := Drained(s, a);
    var p := if InProbeBW(s.model.phase) then ProbeStep(d, a, excess) else d;
    if InProbeBW(s.model.phase) { ProbeStepKept(d, a, excess); ProbeStepFrame(d, a, excess); }
    HoldEnteredKept(p, a);
    HeldKept(HoldEntered(p, a), a);
  }

  /** Every ACK whose valid sample carries a rate keeps the phase machine's
      promises, and the bandwidth estimate, once there, never returns to zero. */
  lemma StepKeeps(s: State, a: Ack)
    requires Ok(s) && (a.rate.valid ==> a.rate.rate != 0)
    ensures var r := AckStep(s, a);
      Ok(r.s) && (r.Accepted? || s.model.bw.max != 0 ==> r.s.model.bw.max != 0) && r.s.conf == s.conf
  {
    hide AckStep, Before, Advanced, Concluded, PhaseOk, Estimated, CwndCap, RttTarget;
    AllOrNothing(s, a);
    AckShape(s, a);
    if !Malformed(s, a) {
      var g := Before(s, a);
      BeforeFrame(s, a);
      EstimatesKept(s.model, s.probe, a.rate, a.now);
      AdvancedKept(g, a, ExcessOf(s, a));
      var t := Advanced(g, a, ExcessOf(s, a));
      AdvancedFrame(g, a, ExcessOf(s, a));
      ConcludedBounds(t, a);
    }
  }

  /** Of the three calls whose results the controller throws away, both entries always
      succeed, and the scheduler fails only when the cycle counter is exhausted; what
      that leaves undone is the ageing of the filter. */
  lemma DiscardedResultsSucceed(s: State, a: Ack)
    requires Ok(s) && a.rate.rate != 0 && !Malformed(s, a)
    ensures var g, excess := Before(s, a), ExcessOf(s, a);
      && (g.model.pipe.full && (g.model.phase == Startup || g.model.phase == Drain) && g.model.rtts.hasMin ==>
            !EnterRejects(g.probe, g.model, a.now, g.conf.seed))
      && (InProbeBW(g.model.phase) ==>
            && !ProbeRejects(g.probe, g.model, SeenBy(g, a, excess))
            && (Scheduled(g.probe, g.model, SeenBy(g, a, excess)).ok <==> !ProbeFails(g.probe, g.model, a.rate))
            && (s.model.bw.cycle < U32_MAX ==> Scheduled(g.probe, g.model, SeenBy(g, a, excess)).ok))
      && (g.model.phase == ProbeRTT && g.model.pipe.full ==> Released(g, a).model.phase == Cruise)
  {
    hide Before, PhaseOk, Estimated, Scheduled, ProbeRejects, Released, Drained;
    BeforeFrame(s, a);
    var g := Before(s, a);
    EstimatesKept(s.model, s.probe, a.rate, a.now);
    DrainedKept(g, a);
    if InProbeBW(g.model.phase) { ProbeStepKept(g, a, ExcessOf(s, a)); }
    if g.model.phase == ProbeRTT { ReleasedKept(g, a); }
  }

  // --------------------------------------------------------------------------------- runs

  function Run(s: State, acks: seq<Ack>): State
  { if acks == [] then s else AckStep(Run(s, acks[..|acks| - 1]), acks[|acks| - 1]).s }

  lemma InitialOk(initialCwnd: u32, mss: u32, seed: bv32, now: u64)
    requires ValidInit(initialCwnd, mss, seed, now)
    ensures Ok(Initial(initialCwnd, mss, seed, now))
  {
    hide Scale3;
    var x := Mul(initialCwnd, 1000) * 277;
    assert Mul(initialCwnd, 1000) == initialCwnd * 1000;
    DivMono(100, x, 100);
  }

  lemma {:induction false} SizedOverRuns(s: State, acks: seq<Ack>)
    requires Sized(s)
    ensures Sized(Run(s, acks))
  {
    hide AckStep, Sized;
    if acks != [] {
      var n := |acks| - 1;
      SizedOverRuns(s, acks[..n]);
      AllOrNothing(Run(s, acks[..n]), acks[n]);
    }
  }

  predicate RatesCarried(acks: seq<Ack>)
  { forall i :: 0 <= i < |acks| ==> acks[i].rate.valid ==> acks[i].rate.rate != 0 }

  /** Over every run from a valid initialisation, with valid samples that carry a
      rate: ProbeBW implies an initialised scheduler, a full pipe, a bandwidth and a
      minimum RTT; Startup and Drain imply an uninitialised one; DOWN and CRUISE have
      counted fewer than 63 rounds; and the bandwidth never returns to zero. */
  lemma {:induction false} PhaseMachine(initialCwnd: u32, mss: u32, seed: bv32, now: u64, acks: seq<Ack>, k: nat)
    requires ValidInit(initialCwnd, mss, seed, now) && RatesCarried(acks) && k <= |acks|
    ensures var s0 := Initial(initialCwnd, mss, seed, now);
      && Ok(Run(s0, acks))
      && (Run(s0, acks[..k]).model.bw.max != 0 ==> Run(s0, acks).model.bw.max != 0)
  {
    hide AckStep, Ok, Initial;
    var s0 := Initial(initialCwnd, mss, seed, now);
    InitialOk(initialCwnd, mss, seed, now);
    if acks != [] {
      var n := |acks| - 1;
      if k <= n {
        assert acks[..n][..k] == acks[..k];
        PhaseMachine(initialCwnd, mss, seed, now, acks[..n], k);
      } else {
        assert acks[..k] == acks;
        PhaseMachine(initialCwnd, mss, seed, now, acks[..n], 0);
      }
      StepKeeps(Run(s0, acks[..n]), acks[n]);
    } else {
      assert acks[..k] == acks;
    }
  }

  // --------------------------------------------------------------- bounds and pacing laws

  /** Short-term bounds move only when a loss round ends outside bandwidth probing
      and the round saw loss or CE marks; a loss cut never goes below what the round
      delivered. The long-term bound falls only on an excess signal from a probing
      sample that was not application-limited, once per probe. */
  lemma CongestionLaw(c: Congestion, x: Signal, a: Ack)
    requires x.mss > 0
    ensures var d := Congested(c, x, a);
      var loss, ce := c.lossSeen || a.lost != 0, c.ecn.seen || a.ce != 0;
      && (d.shortBw != c.shortBw ==> a.flags.roundEnd && !x.probing && loss)
      && (d.shortInflight != c.shortInflight ==>
           a.flags.roundEnd && !x.probing && (loss || (ce && a.flags.ecnEligible)))
      && (a.flags.roundEnd && !x.probing && loss ==> d.shortBw >= Max(1, Max(c.latestBw, x.rate)))
      && (d.longInflight < c.longInflight ==> Excess(c, a) && !x.appLimited && d.consumed)
      && (c.consumed ==> d.consumed && d.longInflight == c.longInflight)
  {
    hide Raised, MoreThan, Scale3, LossCut, EcnCut, Blended, RoundFinished;
    var g := Gathered(c, x, a);
    ProbedLaw(g, x, a);
    FinishedLaw(Probed(g, x, a), x, a.flags.ecnEligible);
  }

  lemma ProbedLaw(c: Congestion, x: Signal, a: Ack)
    requires x.mss > 0
    ensures var d := Probed(c, x, a);
      && d == c.(longInflight := d.longInflight, growth := d.growth, consumed := d.consumed)
      && (d.longInflight < c.longInflight ==> Excess(c, a) && !x.appLimited && d.consumed)
      && (c.consumed ==> d == c)
  {
    hide Raised, MoreThan, Scale3;
    RaisedLaw(c.(longInflight := Max(c.longInflight, a.txInflight)), x, a.acked, a.flags.cwndLimited);
  }

  lemma RaisedLaw(c: Congestion, x: Signal, acked: u32, cwndLimited: bool)
    requires x.mss > 0
    ensures var d := Raised(c, x, acked, cwndLimited);
      d == c.(longInflight := d.longInflight, growth := d.growth) && d.longInflight >= c.longInflight
  {
    hide Pow2, SatMul;
  }

  lemma FinishedLaw(c: Congestion, x: Signal, eligible: bool)
    ensures var d := RoundFinished(c, x, eligible);
      && d.longInflight == c.longInflight && d.consumed == c.consumed
      && (d.shortBw != c.shortBw ==> !x.probing && c.lossSeen)
      && (d.shortInflight != c.shortInflight ==> !x.probing && (c.lossSeen || (c.ecn.seen && eligible)))
      && (!x.probing && c.lossSeen ==> d.shortBw >= Max(1, c.latestBw))
  {
    hide Scale3, Measured;
  }

  /** Until the pipe is full the rate never falls. Afterwards a new rate is at most
      half the estimate in Drain, nine tenths in DOWN, all of it in CRUISE, REFILL
      and ProbeRTT, five quarters in UP; and the short-term cap only lowers it. */
  lemma PacingLaw(s: State)
    ensures var p, bw := NewPacing(s), s.model.bw.max;
      && (!s.model.pipe.full ==> p >= s.pacing)
      && CappedRate(s) <= bw
      && (p != s.pacing ==>
            match s.model.phase
            case Startup => 100 * p <= 277 * bw
            case Drain => 2 * p <= bw
            case Down => 10 * p <= 9 * bw
            case Up => 4 * p <= 5 * bw
            case _ => p <= bw)
  {
    hide Scale3;
    var gain := PacingGain(s.model.phase);
    var scaled := Scale3(CappedRate(s), gain.0, gain.1);
    ScaledAtMost(CappedRate(s), gain.0, gain.1);
    ScaledAtMost(scaled, 99, 100);
  }

  lemma ScaledAtMost(v: u64, num: u32, den: u32)
    requires den > 0
    ensures Scale3(v, num, den) * den <= v * num
  {
    hide Scale3;
    var x := v * num;
    MulNonNegative(v, num);
    assert x == (x / den) * den + x % den;
    MulMono(Scale3(v, num, den), x / den, den);
  }

  // ----------------------------------------------------------------------- ACK aggregation

  /** The aggregation an accepted ACK measures, in the round it belongs to. */
  function Measurement(s: State, a: Ack): Sample
    requires s.conf.mss > 0 && s.agg.stamp <= a.now
  {
    hide Congested, Estimated, Inflight;
    var m := s.(model := Estimated(s.model, a.rate, a.now));
    var c := m.(cong := Congested(s.cong, SignalOf(m, s.model.phase, a), a));
    Sample(c.model.rounds.count, Beyond(s.agg, a.now, a.acked, CappedRate(c), s.cwnd).1)
  }

  ghost predicate AggOk(s: State, h: seq<Sample>) { RingTracks(s.agg.ring, s.model.rounds.count, h) }

  function Lookback(s: State): nat { if s.model.pipe.full then 10 else 1 }

  lemma AggregationStep(s: State, a: Ack, h: seq<Sample>)
    requires Sized(s) && AggOk(s, h) && !Malformed(s, a)
    ensures s.agg.stamp <= a.now
    ensures var r, h' := AckStep(s, a).s, h + [Measurement(s, a)];
      && AggOk(r, h') && r.agg.extra == Peak(h', r.model.rounds.count - Lookback(r), r.model.rounds.count)
      && r.model.rounds.count >= s.model.rounds.count
  {
    hide AckStep, Before, Advanced, Concluded, Estimated, Malformed, RingTracks, Sized, Peak, Measurement;
    WellFormed(s, a);
    AckShape(s, a);
    SizedMss(s);
    var g := Before(s, a);
    BeforeFrame(s, a);
    BeforeAgg(s, a, h);
    RoundGrows(s.model, a.rate, a.now);
    SizedParts(s);
    AdvancedFrame(g, a, ExcessOf(s, a));
    ConcludedBounds(Advanced(g, a, ExcessOf(s, a)), a);
  }

  lemma SizedMss(s: State)
    requires Sized(s)
    ensures s.conf.mss > 0
  {
  }

  lemma SizedParts(s: State)
    requires Sized(s)
    ensures ConfOk(s.conf) && s.pacing != 0
  {
  }

  lemma RoundGrows(m: Model, s: Rate, now: u64)
    ensures Estimated(m, s, now).rounds.count >= m.rounds.count
  {
    hide RttUpdated, PipeUpdated, BwUpdated;
  }

  lemma BeforeAgg(s: State, a: Ack, h: seq<Sample>)
    requires s.conf.mss > 0 && s.agg.stamp <= a.now && AggOk(s, h)
    ensures var g, h' := Before(s, a), h + [Measurement(s, a)];
      AggOk(g, h') && g.agg.extra == Peak(h', g.model.rounds.count - Lookback(g), g.model.rounds.count)
  {
    hide Congested, Estimated, Inflight, RingTracks, Noted, Recent, Peak, Beyond;
    RoundGrows(s.model, a.rate, a.now);
    var m := s.(model := Estimated(s.model, a.rate, a.now));
    var c := m.(cong := Congested(s.cong, SignalOf(m, s.model.phase, a), a));
    var (agg, extra) := Beyond(s.agg, a.now, a.acked, CappedRate(c), s.cwnd);
    BeyondRing(s.agg, a.now, a.acked, CappedRate(c), s.cwnd);
    var round := m.model.rounds.count;
    RingAdvances(s.agg.ring, s.model.rounds.count, round, h);
    NotedTracks(s.agg.ring, round, extra, h);
    RecentIsWindowMax(Noted(s.agg.ring, round, extra), round, h + [Sample(round, extra)], Lookback(c));
  }

  lemma BeyondRing(g: Agg, now: u64, acked: u32, bw: u64, cwnd: u32)
    requires g.stamp <= now
    ensures Beyond(g, now, acked, bw, cwnd).0.ring == g.ring
  {
    hide BdpFloor;
  }

  /** All measurements of a run's accepted ACKs. */
  ghost function Measurements(s: State, acks: seq<Ack>): seq<Sample>
    requires Sized(s)
  {
    if acks == [] then []
    else
      var n := |acks| - 1;
      SizedOverRuns(s, acks[..n]);
      SizedMss(Run(s, acks[..n]));
      var before := Run(s, acks[..n]);
      Measurements(s, acks[..n])
      + if Malformed(before, acks[n]) then [] else [Measurement(before, acks[n])]
  }

  /** Over every run the published aggregation is the largest measurement of the
      last ten rounds, or of the current round alone until the pipe is full. */
  lemma {:induction false} AggregationIsWindowMax(initialCwnd: u32, mss: u32, seed: bv32, now: u64, acks: seq<Ack>)
    requires ValidInit(initialCwnd, mss, seed, now)
    ensures var s0 := Initial(initialCwnd, mss, seed, now);
      && Sized(s0)
      && var s, h := Run(s0, acks), Measurements(s0, acks);
         AggOk(s, h) && s.agg.extra == Peak(h, s.model.rounds.count - Lookback(s), s.model.rounds.count)
  {
    hide AckStep, Sized, Initial, RingTracks, Peak, Measurement, Malformed, PhaseOk;
    var s0 := Initial(initialCwnd, mss, seed, now);
    InitialOk(initialCwnd, mss, seed, now);
    if acks == [] {
      InitialAgg(initialCwnd, mss, seed, now);
    } else {
      var n := |acks| - 1;
      AggregationIsWindowMax(initialCwnd, mss, seed, now, acks[..n]);
      SizedOverRuns(s0, acks[..n]);
      var before := Run(s0, acks[..n]);
      if Malformed(before, acks[n]) {
        AckShape(before, acks[n]);
        assert Measurements(s0, acks) == Measurements(s0, acks[..n]);
      } else {
        AggregationStep(before, acks[n], Measurements(s0, acks[..n]));
      }
    }
  }

  lemma InitialAgg(initialCwnd: u32, mss: u32, seed: bv32, now: u64)
    ensures var s := Initial(initialCwnd, mss, seed, now);
      AggOk(s, []) && s.agg.extra == Peak([], s.model.rounds.count - Lookback(s), s.model.rounds.count)
  {
    hide Scale3;
    EmptyRingTracks();
  }
}
