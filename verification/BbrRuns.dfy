/** Compact BBR over whole runs: when an ACK is accepted, what every event keeps,
    and why the controller never wedges above three bytes per second. */
module BbrRuns {
  import opened Words
  import opened Scaling
  import opened RoundRing
  import opened BbrModel

  // --------------------------------------------------------------------------- invariants

  predicate RttsOk(r: Rtts)
  { (r.hasMin ==> r.min != 0) && (r.hasProbe ==> r.probe != 0) && (r.minExpired ==> r.hasMin) }

  /** What the modes promise about the estimates. */
  predicate ModelOk(m: Model)
  {
    && RttsOk(m.rtts) && (m.pipe.full ==> m.bw.max != 0)
    && (m.mode == Drain || m.mode == ProbeBW ==> m.pipe.full)
    && (m.mode == ProbeBW || m.mode == ProbeRTT ==> m.rtts.hasMin)
  }

  predicate ProbeOk(p: Probe, m: Model)
  { p.cycleIndex < 8 && (p.cycleStarted ==> m.hasUpdate && p.cycleStart <= m.lastUpdate) }

  predicate RecoveryOk(r: Recovery)
  { (r.inRecovery ==> r.priorCwnd != 0) && (r.conservation ==> r.inRecovery) }

  predicate WindowOk(s: State, mss: u32, limit: u32)
  { 0 < mss <= s.cwnd <= limit && 0 < s.initialCwnd <= limit && s.pacing != 0 }

  predicate Ok(s: State, mss: u32, limit: u32)
  { WindowOk(s, mss, limit) && ModelOk(s.model) && ProbeOk(s.probe, s.model) && RecoveryOk(s.recovery) }

  // ------------------------------------------------------------------- exact rate thresholds

  /** The least bandwidth estimate whose pacing rate is not rounded to zero. */
  function NeededBw(mode: Mode, phase: nat): nat
  {
    match mode
    case Startup => 0
    case Drain => 3
    case ProbeBW => if phase == 0 then 1 else 2
    case ProbeRTT => 2
  }

  lemma PacedNonzero(bw: u64, gain: nat)
    requires 0 < gain <= 739
    ensures Paced(bw, gain) != 0 <==> bw * (gain * 99) >= 25600
  {
    hide ScaleFloor;
    MulNonNegative(bw, gain * 99);
    var x := bw * (gain * 99);
    if x >= 25600 { DivMono(25600, x, 25600); } else { DivMono(x, 25599, 25600); }
  }

  lemma RateThresholds(bw: u64)
    ensures Paced(bw, 88) != 0 <==> bw >= 3
    ensures Paced(bw, 256) != 0 <==> bw >= 2
    ensures Paced(bw, 192) != 0 <==> bw >= 2
    ensures Paced(bw, 320) != 0 <==> bw >= 1
  {
    PacedNonzero(bw, 88); PacedNonzero(bw, 256); PacedNonzero(bw, 192); PacedNonzero(bw, 320);
    hide Paced;
  }

  lemma InitialRateNonzero(cwnd: u32, srtt: u64)
    requires cwnd != 0
    ensures InitialRate(cwnd, srtt) != 0
  {
    hide Paced;
    var rtt := if srtt != 0 then srtt else INITIAL_RTT;
    DivFacts(cwnd * NS_PER_SEC, rtt);
    var base := cwnd * NS_PER_SEC / rtt;
    PacedNonzero(if base == 0 then 1 else base, 739);
  }

  // ---------------------------------------------------------------------- each stage keeps it

  lemma EstimatesKept(m: Model, s: Rate, now: u64)
    requires ModelOk(m)
    ensures ModelOk(Estimated(m, s, now))
    ensures m.bw.max != 0 ==> Estimated(m, s, now).bw.max != 0
  {
    hide Admit, RttUpdated, FullBwThreshold;
    var round := RoundUpdated(m.rounds, s).count;
    AdmitBounds(m.bw, round, s.rate);
    RttKept(m.rtts, s, now);
  }

  lemma AdmitBounds(f: Filter, round: nat, rate: u64)
    ensures Admit(f, round, rate).max >= rate
  {
    hide Aged, MaxOf;
    var a := Aged(f, round);
    var slots := a.slots[round % SPAN := Max(a.slots[round % SPAN], rate)];
    assert slots[round % SPAN] >= rate;
  }

  lemma RttKept(r: Rtts, s: Rate, now: u64)
    requires RttsOk(r)
    ensures RttsOk(RttUpdated(r, s, now)) && (r.hasMin ==> RttUpdated(r, s, now).hasMin)
  {
    hide Elapsed;
  }

  lemma DrainKept(m: Model, s: Rate)
    requires ModelOk(m)
    ensures ModelOk(DrainChecked(m, s)) && DrainChecked(m, s) == m.(mode := DrainChecked(m, s).mode)
    ensures DrainChecked(m, s).mode == Startup ==> !m.pipe.full
  {
    hide BdpCeil;
  }

  predicate Current(m: Model, p: Probe, now: u64)
  { ModelOk(m) && ProbeOk(p, m) && m.hasUpdate && m.lastUpdate == now }

  /** What the mode machine leaves alone, and the only way it moves the round marker. */
  predicate Untouched(m: Model, n: Model, s: Rate)
  {
    && n.bw == m.bw && n.pipe == m.pipe && n.rounds == m.rounds.(next := n.rounds.next)
    && (n.rounds.next == m.rounds.next || n.rounds.next == s.delivered)
  }

  lemma ProbeRttKept(m: Model, p: Probe, t: Transport, s: Rate, cwnd: u32, now: u64)
    requires Current(m, p, now)
    ensures var (n, q, exited) := ProbeRttUpdated(m, p, t, s, cwnd, now);
      && Current(n, q, now) && Untouched(m, n, s)
  {
    hide ModelOk, ProbeOk, ProbeRttHeld, Max;
    EnterKept(m, p, cwnd);
    var (n, q) := ProbeRttEntered(m, p, cwnd);
    HeldKept(n, q, t, s, now);
  }

  lemma EnterKept(m: Model, p: Probe, cwnd: u32)
    requires ModelOk(m) && ProbeOk(p, m)
    ensures var (n, q) := ProbeRttEntered(m, p, cwnd);
      ModelOk(n) && ProbeOk(q, n) && n == m.(mode := n.mode)
  {
  }

  lemma HeldKept(m: Model, p: Probe, t: Transport, s: Rate, now: u64)
    requires Current(m, p, now)
    ensures var (n, q, exited) := ProbeRttHeld(m, p, t, s, now);
      && Current(n, q, now) && Untouched(m, n, s)
  {
    hide Minimum, SatAdd;
  }

  lemma CycleKept(m: Model, p: Probe, s: Rate, lost: u32, now: u64)
    requires ModelOk(m) && ProbeOk(p, m) && m.hasUpdate && m.lastUpdate == now
    ensures p.cycleStarted ==> p.cycleStart <= now
    ensures ProbeOk(Cycled(m, p, s, lost, now), m)
  {
    hide Advances;
  }

  // ---------------------------------------------------------------------------- publication

  /** With its invariants, a mode's policy is given exactly when its rate is not
      rounded to zero, and its window lies between one segment and the limit. */
  lemma PolicyExact(s: State, t: Transport, ack: Ack, cwnd: u32)
    requires ValidTransport(t) && 0 < cwnd <= t.limit && ModelOk(s.model) && s.probe.cycleIndex < 8
    requires 0 < s.initialCwnd <= t.limit && s.pacing != 0
    ensures var d := ModePolicy(s, t, ack, cwnd);
      d.Given? && t.mss <= d.policy.cwnd <= t.limit && t.mss <= d.policy.ssthresh <= t.limit
      && (d.policy.pacing != 0 <==> s.model.bw.max >= NeededBw(s.model.mode, s.probe.cycleIndex))
  {
    hide Paced, BdpCeil, ScaleCeil, StartupTarget;
    RateThresholds(s.model.bw.max);
    TargetBounds(s.model.bw.max, RttOf(s.model), t, s.initialCwnd);
    TargetBounds(s.model.bw.max, RttOf(s.model), t, Minimum(t));
  }

  lemma TargetBounds(bw: u64, rtt: u64, t: Transport, initial: u32)
    requires ValidTransport(t)
    ensures Minimum(t) <= StartupTarget(bw, rtt, t, initial) <= t.limit && t.mss <= Minimum(t)
  {
    hide BdpCeil, ScaleCeil;
  }

  /** The mode and cycle phase an ACK ends in, from the estimates it makes. */
  function ModeEnd(m: Model, p: Probe, lost: u32, t: Transport, ack: Ack): (Mode, nat)
  {
    var (n, q, _) := ProbeRttUpdated(DrainChecked(m, ack.rate), p, t, ack.rate, 0, ack.time);
    if n.mode != ProbeBW || (q.cycleStarted && ack.time < q.cycleStart) then (n.mode, q.cycleIndex)
    else (n.mode, Cycled(n, q, ack.rate, lost, ack.time).cycleIndex)
  }

  /** The window plays no part in the mode machine. */
  lemma WindowBlind(m: Model, p: Probe, t: Transport, s: Rate, cwnd: u32, now: u64)
    ensures var (n, q, e) := ProbeRttUpdated(m, p, t, s, cwnd, now);
      var (n0, q0, e0) := ProbeRttUpdated(m, p, t, s, 0, now);
      n == n0 && e == e0 && q0 == q.(priorCwnd := q0.priorCwnd)
  {
    hide Minimum, SatAdd;
  }

  lemma CycleBlind(m: Model, p: Probe, q: Probe, s: Rate, lost: u32, now: u64)
    requires q == p.(priorCwnd := q.priorCwnd) && (p.cycleStarted ==> p.cycleStart <= now)
    ensures Cycled(m, p, s, lost, now).cycleIndex == Cycled(m, q, s, lost, now).cycleIndex
  {
    hide BdpCeil, ScaleCeil;
  }

  /** The tail of an ACK: from a state whose estimates are current. */
  lemma ModeStepExact(s: State, t: Transport, ack: Ack, cwnd: u32, owned: bool)
    requires Ok(s, t.mss, t.limit) && t.mss <= cwnd <= t.limit
    requires s.model.hasUpdate && s.model.lastUpdate == ack.time
    ensures var r, end := ModeStep(s, t, ack, cwnd, owned), ModeEnd(s.model, s.probe, s.pendingLoss, t, ack);
      && Ok(r.s, t.mss, t.limit) && !r.Quiet? && end == (r.s.model.mode, r.s.probe.cycleIndex)
      && (r.Accepted? <==> s.model.bw.max >= NeededBw(end.0, end.1))
      && (r.Accepted? ==> r.policy.cwnd == r.s.cwnd && r.policy.pacing == r.s.pacing)
      && (r.Accepted? && owned ==> r.s.cwnd == cwnd)
      && r.s.recovery == s.recovery && r.s.delivered == s.delivered && Untouched(s.model, r.s.model, ack.rate)
  {
    hide ModePolicy, DrainChecked, ProbeRttUpdated, Cycled, ModelOk, ProbeOk, NeededBw;
    var m := DrainChecked(s.model, ack.rate);
    DrainKept(s.model, ack.rate);
    ProbeSame(s.probe, s.model, m);
    ProbeRttKept(m, s.probe, t, ack.rate, cwnd, ack.time);
    WindowBlind(m, s.probe, t, ack.rate, cwnd, ack.time);
    var (n, p, exited) := ProbeRttUpdated(m, s.probe, t, ack.rate, cwnd, ack.time);
    var p0 := ProbeRttUpdated(m, s.probe, t, ack.rate, 0, ack.time).1;
    var after := s.(model := n, probe := p);
    var next := if exited then RestoredCwnd(p, cwnd, t.limit) else cwnd;
    ProbeIndex(p, n);
    if n.mode == ProbeBW {
      CycleKept(n, p, ack.rate, s.pendingLoss, ack.time);
      CycleBlind(n, p, p0, ack.rate, s.pendingLoss, ack.time);
      var q := Cycled(n, p, ack.rate, s.pendingLoss, ack.time);
      ProbeIndex(q, n);
      PolicyExact(after.(probe := q), t, ack, next);
    } else {
      PolicyExact(after, t, ack, next);
    }
  }

  lemma ProbeSame(p: Probe, m: Model, n: Model)
    requires ProbeOk(p, m) && n.hasUpdate == m.hasUpdate && n.lastUpdate == m.lastUpdate
    ensures ProbeOk(p, n)
  {
  }

  lemma ProbeIndex(p: Probe, m: Model)
    requires ProbeOk(p, m)
    ensures p.cycleIndex < 8
  {
  }

  lemma RecoveryBounds(s: State, t: Transport, acked: u32, roundStart: bool)
    requires Ok(s, t.mss, t.limit)
    ensures var r := RecoveryAcked(s.recovery, roundStart);
      var cwnd := RecoveryCwnd(r, s.cwnd, t, acked);
      && RecoveryOk(r) && t.mss <= cwnd <= t.limit
      && r.inRecovery == s.recovery.inRecovery && r.priorCwnd == s.recovery.priorCwnd
      && (r.conservation ==> cwnd >= Min(t.limit, t.inflight + acked))
  {
  }

  /** The bandwidth estimate an ACK will leave, from the state before it. */
  function NewBw(s: State, ack: Ack): u64
  { BwUpdated(s.model.bw, RoundUpdated(s.model.rounds, ack.rate).count, ack.rate).max }

  /** The mode and cycle phase it will end in. */
  function Ending(s: State, t: Transport, ack: Ack): (Mode, nat)
  { ModeEnd(Estimated(s.model, ack.rate, ack.time), s.probe, s.pendingLoss, t, ack) }

  /** The ACK reaches the estimators. */
  predicate Reaches(s: State, ack: Ack)
  { ack.acked != 0 && ack.time != 0 && (s.model.hasUpdate ==> s.model.lastUpdate <= ack.time) }

  /** An ACK is accepted if and only if it carries bytes and a non-zero clock that
      does not run backwards, and the bandwidth it will estimate gives a rate of at
      least one byte per second in the mode it will end in; all of this can be
      computed before the call. Accepted or not, the invariant holds afterwards;
      accepted, the published window lies in [MSS, limit] and the rate is non-zero. */
  lemma AckExact(s: State, t: Transport, ack: Ack)
    requires Ok(s, t.mss, t.limit)
    ensures var r, end := AckStep(s, t, ack), Ending(s, t, ack);
      && Ok(r.s, t.mss, t.limit) && !r.Quiet?
      && (r.Accepted? <==> Reaches(s, ack) && NewBw(s, ack) >= NeededBw(end.0, end.1))
      && (Reaches(s, ack) ==>
            && r.s.model.mode == end.0 && r.s.probe.cycleIndex == end.1
            && r.s.model.bw.max == NewBw(s, ack))
      && (r.Accepted? ==>
            && r.policy.cwnd == r.s.cwnd && r.policy.pacing == r.s.pacing
            && t.mss <= r.policy.cwnd <= t.limit && r.policy.pacing != 0)
  {
    hide RttUpdated, PipeChecked, BwUpdated, ModeStep, ModelOk, InitialRate, ProbeOk, RecoveryOk, NeededBw, ModeEnd;
    if ack.acked != 0 && ack.time != 0 {
      InitialRateNonzero(s.cwnd, ack.srtt);
      var seen := RttSeen(s, ack);
      if Reaches(s, ack) {
        ObservedOk(seen, t, ack);
        RecoveryStepExact(Observed(seen, ack), t, ack);
      }
    }
  }

  /** Three bytes per second suffice in every mode. */
  lemma ThreeSuffices(s: State, t: Transport, ack: Ack)
    requires Ok(s, t.mss, t.limit) && Reaches(s, ack) && NewBw(s, ack) >= 3
    ensures AckStep(s, t, ack).Accepted?
  {
    hide AckStep, Ok, Ending, NewBw;
    AckExact(s, t, ack);
  }

  lemma ObservedOk(s: State, t: Transport, ack: Ack)
    requires Ok(s, t.mss, t.limit) && (s.model.hasUpdate ==> s.model.lastUpdate <= ack.time)
    ensures var o := Observed(s, ack);
      Ok(o, t.mss, t.limit) && o.model.hasUpdate && o.model.lastUpdate == ack.time
  {
    hide RttUpdated, PipeChecked, BwUpdated, ModelOk;
    EstimatesKept(s.model, ack.rate, ack.time);
  }

  lemma RecoveryStepExact(s: State, t: Transport, ack: Ack)
    requires Ok(s, t.mss, t.limit) && s.model.hasUpdate && s.model.lastUpdate == ack.time
    ensures var r, q := RecoveryStep(s, t, ack), RecoveryAcked(s.recovery, s.model.rounds.start);
      var end := ModeEnd(s.model, s.probe, s.pendingLoss, t, ack);
      && Ok(r.s, t.mss, t.limit) && !r.Quiet? && end == (r.s.model.mode, r.s.probe.cycleIndex)
      && (r.Accepted? <==> s.model.bw.max >= NeededBw(end.0, end.1))
      && (r.Accepted? ==> r.policy.cwnd == r.s.cwnd && r.policy.pacing == r.s.pacing)
      && r.s.recovery == (if s.recovery.inRecovery then q else s.recovery)
      && r.s.delivered == s.delivered && Untouched(s.model, r.s.model, ack.rate)
      && (r.Accepted? && s.recovery.inRecovery && q.conservation ==> r.s.cwnd >= Min(t.limit, t.inflight + ack.acked))
  {
    hide ModeStep, ModelOk, ProbeOk, RecoveryOk, NeededBw, RecoveryCwnd, RecoveryAcked, ModeEnd;
    RecoveryBounds(s, t, ack.acked, s.model.rounds.start);
    if s.recovery.inRecovery {
      var q := RecoveryAcked(s.recovery, s.model.rounds.start);
      ModeStepExact(s.(recovery := q), t, ack, RecoveryCwnd(q, s.cwnd, t, ack.acked), q.conservation);
    } else {
      ModeStepExact(s, t, ack, s.cwnd, false);
    }
  }

  /** Every event keeps the invariant, whether it is accepted or rejected. */
  lemma StepKeeps(s: State, mss: u32, limit: u32, e: Event)
    requires Ok(s, mss, limit)
    ensures Ok(Step(s, mss, limit, e).s, mss, limit)
  {
    hide AckStep;
    match e {
      case AckEvent(ack, inflight) => AckExact(s, Transport(mss, inflight, limit), ack);
      case _ =>
    }
  }

  // --------------------------------------------------------------------------------- runs

  function Run(s: State, mss: u32, limit: u32, events: seq<Event>): State
  {
    if events == [] then s
    else Step(Run(s, mss, limit, events[..|events| - 1]), mss, limit, events[|events| - 1]).s
  }

  lemma {:induction false} RunKeeps(s: State, mss: u32, limit: u32, events: seq<Event>)
    requires Ok(s, mss, limit)
    ensures Ok(Run(s, mss, limit, events), mss, limit)
  {
    hide Step, Ok;
    if events != [] {
      var n := |events| - 1;
      RunKeeps(s, mss, limit, events[..n]);
      StepKeeps(Run(s, mss, limit, events[..n]), mss, limit, events[n]);
    }
  }

  lemma InitialOk(t: Transport, initialCwnd: u32, seed: u32)
    requires ValidInit(t, initialCwnd) && initialCwnd >= t.mss
    ensures Ok(Initial(initialCwnd, seed), t.mss, t.limit)
  {
    hide InitialRate;
    InitialRateNonzero(initialCwnd, 0);
  }

  /** Compact BBR never wedges: after any run from a valid initialisation, any ACK
      with bytes and a clock that does not run backwards is accepted, unless it will
      end outside Startup with an estimate below three bytes per second. */
  lemma NeverWedges(t: Transport, initialCwnd: u32, seed: u32, events: seq<Event>, ack: Ack, inflight: u32)
    requires ValidInit(t, initialCwnd) && initialCwnd >= t.mss
    requires Reaches(Run(Initial(initialCwnd, seed), t.mss, t.limit, events), ack)
    ensures var s := Run(Initial(initialCwnd, seed), t.mss, t.limit, events);
      var r := Step(s, t.mss, t.limit, AckEvent(ack, inflight));
      && (NewBw(s, ack) >= 3 || Ending(s, t.(inflight := inflight), ack).0 == Startup ==> r.Accepted?)
      && (r.Accepted? ==> t.mss <= r.policy.cwnd <= t.limit && r.policy.pacing != 0)
  {
    hide AckStep, Ok, Initial, Run, NewBw, Ending;
    InitialOk(t, initialCwnd, seed);
    RunKeeps(Initial(initialCwnd, seed), t.mss, t.limit, events);
    AckExact(Run(Initial(initialCwnd, seed), t.mss, t.limit, events), t.(inflight := inflight), ack);
  }
}
