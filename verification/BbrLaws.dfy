/** The windowed-maximum filter and the recovery episode of compact BBR over whole
    runs, and the state in which it does reject a well-formed ACK. */
module BbrLaws {
  import opened Words
  import opened Scaling
  import opened RoundRing
  import opened BbrModel
  import opened BbrRuns
  import RackOrder
  import RateSampling

  // -------------------------------------------------------- any state, any transport

  /** An event with the MSS and limit of its moment. */
  datatype Input = Input(mss: u32, limit: u32, event: Event)

  function Next(s: State, i: Input): Result { Step(s, i.mss, i.limit, i.event) }

  function RunAny(s: State, inputs: seq<Input>): State
  { if inputs == [] then s else Next(RunAny(s, inputs[..|inputs| - 1]), inputs[|inputs| - 1]).s }

  /** The ACK passes the controller's guard. */
  predicate Passes(s: State, t: Transport, ack: Ack)
  { Reaches(s, ack) && ValidTransport(t) && !BadWindow(s.cwnd, t) }

  lemma ModeFrame(s: State, t: Transport, ack: Ack, cwnd: u32, owned: bool)
    ensures var r := ModeStep(s, t, ack, cwnd, owned);
      && !r.Quiet? && Untouched(s.model, r.s.model, ack.rate)
      && r.s.recovery == s.recovery && r.s.delivered == s.delivered
      && (r.Accepted? && owned ==> r.policy.cwnd == cwnd)
  {
    hide ModePolicy, DrainChecked, ProbeRttUpdated, Cycled, RestoredCwnd, BadWindow;
    var m := DrainChecked(s.model, ack.rate);
    DrainFrame(s.model, ack.rate);
    ProbeRttFrame(m, s.probe, t, ack.rate, cwnd, ack.time);
  }

  lemma DrainFrame(m: Model, s: Rate)
    ensures DrainChecked(m, s) == m.(mode := DrainChecked(m, s).mode)
  {
    hide BdpCeil;
  }

  lemma ProbeRttFrame(m: Model, p: Probe, t: Transport, s: Rate, cwnd: u32, now: u64)
    ensures Untouched(m, ProbeRttUpdated(m, p, t, s, cwnd, now).0, s)
  {
    hide Minimum, SatAdd;
  }

  /** Conservation never asks for less than what is in flight and newly acknowledged. */
  lemma ConservedEnough(r: Recovery, cwnd: u32, t: Transport, acked: u32)
    requires r.conservation
    ensures RecoveryCwnd(r, cwnd, t, acked) >= Min(t.limit, t.inflight + acked)
  {
  }

  /** What one ACK does to the parts that outlive the mode machine. */
  lemma AckParts(s: State, t: Transport, ack: Ack)
    ensures var r, est := AckStep(s, t, ack), Estimated(s.model, ack.rate, ack.time);
      var q := RecoveryAcked(s.recovery, est.rounds.start);
      var judged := s.recovery.inRecovery && ValidWindow(s.cwnd, t);
      if !Passes(s, t, ack) then
        r.Rejected? && r.s.model == s.model && r.s.recovery == s.recovery && r.s.delivered == s.delivered
      else
        && Untouched(est, r.s.model, ack.rate)
        && r.s.recovery == (if judged then q else s.recovery)
        && r.s.delivered == Max(s.delivered, ack.rate.delivered)
        && (r.Accepted? && s.recovery.inRecovery && q.conservation ==>
             r.policy.cwnd >= Min(t.limit, t.inflight + ack.acked))
  {
    hide Estimated, ModeStep, InitialRate, RecoveryAcked, RecoveryCwnd, Untouched;
    if Passes(s, t, ack) {
      InitialRateNonzero(s.cwnd, ack.srtt);
      var o := Observed(RttSeen(s, ack), ack);
      var q := RecoveryAcked(s.recovery, o.model.rounds.start);
      SelfUntouched(o.model, ack.rate);
      ModeFrame(o, t, ack, o.cwnd, false);
      var cwnd := RecoveryCwnd(q, o.cwnd, t, ack.acked);
      ModeFrame(o.(recovery := q), t, ack, cwnd, q.conservation);
      if q.conservation { ConservedEnough(q, o.cwnd, t, ack.acked); }
    }
  }

  lemma SelfUntouched(m: Model, s: Rate)
    ensures Untouched(m, m, s)
  {
  }

  // ------------------------------------------------------------- the bandwidth filter

  /** The ACK opens a packet-timed round: it acknowledges data sent after everything
      delivered when the last round opened. */
  predicate Opens(s: State, rate: Rate)
  { 0 < rate.delivered && s.model.rounds.next <= rate.priorDelivered <= rate.delivered }

  /** The sample an event adds to the history of bandwidth samples: one without a rate
      is not taken, and an application-limited one only if it raises the estimate. */
  function Taken(s: State, i: Input): seq<Sample>
  {
    if !i.event.AckEvent? || !Passes(s, Transport(i.mss, i.event.inflight, i.limit), i.event.ack) then [] else
    var rate := i.event.ack.rate;
    if rate.valid && rate.rate != 0 && (rate.rate >= s.model.bw.max || !rate.appLimited)
    then [Sample(s.model.rounds.count + (if Opens(s, rate) then 1 else 0), rate.rate)] else []
  }

  ghost predicate FilterOk(m: Model, h: seq<Sample>) { Tracks(m.bw, h) && m.bw.round <= m.rounds.count }

  lemma FilterStep(s: State, i: Input, h: seq<Sample>)
    requires FilterOk(s.model, h)
    ensures FilterOk(Next(s, i).s.model, h + Taken(s, i))
  {
    hide AckStep, Passes, Admit, Tracks, RttUpdated, PipeChecked;
    assert h + [] == h;
    match i.event {
      case AckEvent(ack, inflight) =>
        AckParts(s, Transport(i.mss, inflight, i.limit), ack);
        var round := RoundUpdated(s.model.rounds, ack.rate).count;
        AdmitTracks(s.model.bw, h, round, ack.rate.rate);
        AdmitRound(s.model.bw, round, ack.rate.rate);
      case _ =>
    }
  }

  lemma AdmitRound(f: Filter, round: nat, rate: u64)
    ensures f.round <= round ==> Admit(f, round, rate).round == round
  {
    hide MaxOf;
  }

  /** All admitted samples of a run, with the packet-timed round of each. */
  function Admissions(s: State, inputs: seq<Input>): seq<Sample>
  {
    if inputs == [] then []
    else
      var n := |inputs| - 1;
      Admissions(s, inputs[..n]) + Taken(RunAny(s, inputs[..n]), inputs[n])
  }

  /** Over every run, whatever MSS and limit each event has, the bandwidth estimate is
      the largest of all samples admitted in the ten rounds that end at the latest
      admitted one. */
  lemma {:induction false} BandwidthIsWindowMax(initialCwnd: u32, seed: u32, inputs: seq<Input>)
    ensures var s0 := Initial(initialCwnd, seed);
      var m, h := RunAny(s0, inputs).model, Admissions(s0, inputs);
      && FilterOk(m, h) && m.bw.max == Peak(h, m.bw.round - SPAN, m.bw.round)
      && (h != [] ==> h[|h| - 1].round == m.bw.round)
  {
    hide Next, FilterOk, Taken, Peak;
    var s0 := Initial(initialCwnd, seed);
    if inputs == [] {
      InitialFilter(initialCwnd, seed);
    } else {
      var n := |inputs| - 1;
      BandwidthIsWindowMax(initialCwnd, seed, inputs[..n]);
      FilterStep(RunAny(s0, inputs[..n]), inputs[n], Admissions(s0, inputs[..n]));
    }
    FilterReads(RunAny(s0, inputs).model, Admissions(s0, inputs));
  }

  lemma InitialFilter(initialCwnd: u32, seed: u32)
    ensures FilterOk(Initial(initialCwnd, seed).model, [])
  {
    EmptyTracks();
  }

  lemma FilterReads(m: Model, h: seq<Sample>)
    requires FilterOk(m, h)
    ensures m.bw.max == Peak(h, m.bw.round - SPAN, m.bw.round) && (h != [] ==> h[|h| - 1].round == m.bw.round)
  {
    FilterIsWindowMax(m.bw, h);
  }

  // ------------------------------------------------------------- the recovery episode

  /** Packet conservation owns the window and waits for data delivered after the
      marker taken at entry. */
  predicate Conserving(s: State, marker: u64, prior: u32)
  { s.recovery == Recovery(prior, true, true) && s.model.rounds.next >= marker && s.delivered >= marker }

  /** Inside an episode: acknowledgements of data sent before entry, losses, and
      repeated entries. The delivered counter never runs backwards. */
  predicate BeforeMarker(e: Event, marker: u64)
  {
    match e
    case AckEvent(ack, _) => ack.rate.priorDelivered < marker <= ack.rate.delivered
    case Exit => false
    case Timeout(_) => false
    case _ => true
  }

  /** An accepted ACK publishes at least what conservation allows at its own limit. */
  predicate Conserves(i: Input, r: Result)
  { i.event.AckEvent? && r.Accepted? ==> r.policy.cwnd >= Min(i.limit, i.event.inflight + i.event.ack.acked) }

  lemma ConservingStep(s: State, i: Input, marker: u64, prior: u32)
    requires Conserving(s, marker, prior) && BeforeMarker(i.event, marker)
    ensures Conserving(Next(s, i).s, marker, prior) && Conserves(i, Next(s, i))
  {
    hide AckStep, RttUpdated, PipeChecked, BwUpdated;
    match i.event {
      case AckEvent(ack, inflight) =>
        AckParts(s, Transport(i.mss, inflight, i.limit), ack);
      case _ =>
    }
  }

  /** From an accepted entry on, in any state and whatever MSS and limit each event
      has, every ACK of older data is answered with a window of at least what
      conservation allows, whatever losses come between. */
  lemma {:induction false} ConservationHolds(s: State, entry: Input, inputs: seq<Input>)
    requires entry.event.Enter? && Next(s, entry).Accepted?
    requires forall i :: 0 <= i < |inputs| ==> BeforeMarker(inputs[i].event, s.delivered)
    ensures var entered := Next(s, entry);
      && Min(entry.limit, entry.event.inflight + entry.event.acked) <= entered.policy.cwnd
      && Conserving(RunAny(entered.s, inputs), s.delivered, s.cwnd)
      && (inputs != [] ==>
            var last := inputs[|inputs| - 1];
            Conserves(last, Next(RunAny(entered.s, inputs[..|inputs| - 1]), last)))
  {
    hide Next, Conserving, BeforeMarker, Conserves;
    EnterFacts(s, entry);
    var e := Next(s, entry).s;
    if inputs != [] {
      var n := |inputs| - 1;
      ConservationHolds(s, entry, inputs[..n]);
      ConservingStep(RunAny(e, inputs[..n]), inputs[n], s.delivered, s.cwnd);
    }
  }

  lemma EnterFacts(s: State, entry: Input)
    requires entry.event.Enter? && Next(s, entry).Accepted?
    ensures Conserving(Next(s, entry).s, s.delivered, s.cwnd)
    ensures Min(entry.limit, entry.event.inflight + entry.event.acked) <= Next(s, entry).policy.cwnd
  {
  }

  /** Conservation ends exactly with an ACK that opens a round, at a window of at
      least one segment: one for data sent when at least the marked amount had been
      delivered. */
  lemma ConservationEnds(s: State, i: Input, marker: u64, prior: u32)
    requires Conserving(s, marker, prior) && i.event.AckEvent?
    requires Passes(s, Transport(i.mss, i.event.inflight, i.limit), i.event.ack)
    ensures var r, rate := Next(s, i).s.recovery, i.event.ack.rate;
      && r.inRecovery && r.priorCwnd == prior
      && (!r.conservation <==>
            i.mss <= s.cwnd && rate.delivered != 0 && rate.delivered >= rate.priorDelivered >= s.model.rounds.next)
      && (!r.conservation ==> rate.priorDelivered >= marker)
  {
    hide AckStep, RttUpdated, PipeChecked, BwUpdated;
    AckParts(s, Transport(i.mss, i.event.inflight, i.limit), i.event.ack);
  }

  predicate StaysIn(e: Event) { !e.Exit? && !e.Timeout? }

  lemma {:induction false} PriorKept(s: State, inputs: seq<Input>)
    requires s.recovery.inRecovery && forall i :: 0 <= i < |inputs| ==> StaysIn(inputs[i].event)
    ensures RunAny(s, inputs).recovery.inRecovery && RunAny(s, inputs).recovery.priorCwnd == s.recovery.priorCwnd
  {
    hide AckStep, Passes;
    if inputs != [] {
      var n := |inputs| - 1;
      PriorKept(s, inputs[..n]);
      if inputs[n].event.AckEvent? {
        var t := Transport(inputs[n].mss, inputs[n].event.inflight, inputs[n].limit);
        AckParts(RunAny(s, inputs[..n]), t, inputs[n].event.ack);
      }
    }
  }

  /** After any run inside recovery, whatever MSS and limit each event has, leaving it
      is accepted exactly when the transport is valid and the window within its limit,
      and restores at least the window from before entry, as far as the limit allows. */
  lemma ExitRestores(s: State, entry: Input, inputs: seq<Input>, mss: u32, limit: u32)
    requires entry.event.Enter? && Next(s, entry).Accepted?
    requires forall i :: 0 <= i < |inputs| ==> StaysIn(inputs[i].event)
    ensures var inside := RunAny(Next(s, entry).s, inputs);
      var r := Next(inside, Input(mss, limit, Exit));
      && (r.Accepted? <==> 0 < mss <= limit && 0 < inside.cwnd <= limit)
      && (r.Accepted? ==>
            r.policy.cwnd >= Min(limit, s.cwnd) && !r.s.recovery.inRecovery && !r.s.recovery.conservation)
  {
    hide RunAny;
    EnterFacts(s, entry);
    PriorKept(Next(s, entry).s, inputs);
  }

  /** At a fixed transport it is always accepted. */
  lemma ExitAccepted(s: State, entry: Input, inputs: seq<Input>)
    requires Ok(s, entry.mss, entry.limit) && entry.event.Enter? && Next(s, entry).Accepted?
    requires forall i :: 0 <= i < |inputs| ==>
      StaysIn(inputs[i].event) && inputs[i].mss == entry.mss && inputs[i].limit == entry.limit
    ensures Next(RunAny(Next(s, entry).s, inputs), Input(entry.mss, entry.limit, Exit)).Accepted?
  {
    hide Next, ModelOk, ProbeOk, RecoveryOk;
    StepIs(s, entry);
    StepKeeps(s, entry.mss, entry.limit, entry.event);
    FixedRun(Next(s, entry).s, entry.mss, entry.limit, inputs);
    ExitRestores(s, entry, inputs, entry.mss, entry.limit);
  }

  lemma StepIs(s: State, i: Input)
    ensures Next(s, i) == Step(s, i.mss, i.limit, i.event)
  {
  }

  lemma {:induction false} FixedRun(s: State, mss: u32, limit: u32, inputs: seq<Input>)
    requires Ok(s, mss, limit) && forall i :: 0 <= i < |inputs| ==> inputs[i].mss == mss && inputs[i].limit == limit
    ensures Ok(RunAny(s, inputs), mss, limit)
  {
    hide Step, Ok;
    if inputs != [] {
      var n := |inputs| - 1;
      FixedRun(s, mss, limit, inputs[..n]);
      StepKeeps(RunAny(s, inputs[..n]), mss, limit, inputs[n].event);
    }
  }

  // --------------------------------------------------------- what the policies are for

  /** Pacing against the estimate: Drain at most 7/20 of it, the DOWN phase at most
      three quarters, cruising and ProbeRTT at most all of it, UP at least all of it. */
  lemma PacedLaw(bw: u64)
    ensures 20 * Paced(bw, 88) <= 7 * bw && 4 * Paced(bw, 192) <= 3 * bw && Paced(bw, 256) <= bw <= Paced(bw, 320)
    ensures Paced(bw, 739) >= bw
  {
    hide ScaleFloor;
    DivMono(bw * (88 * 99), bw * 8960, 25600);
    QuotientUnder(bw * (88 * 99), 25600); QuotientUnder(bw * (192 * 99), 25600);
    DivMono(bw * (256 * 99), bw * 25600 + 0, 25600); DivOfMultiplePlus(bw, 0, 25600);
    DivMono(bw * 25600 + 0, bw * (320 * 99), 25600);
    DivMono(bw * 25600 + 0, bw * (739 * 99), 25600);
  }

  lemma QuotientUnder(x: nat, d: nat)
    requires d > 0
    ensures d * (x / d) <= x
  {
    assert x == (x / d) * d + x % d;
  }

  /** Before the pipe is full Startup never lowers the rate or the window and adds at
      most the acknowledged bytes (to the four-segment floor). Drain sends below the
      estimate. ProbeBW keeps the window within twice the BDP and paces above the
      estimate only while probing up; ProbeRTT shrinks to the floor. */
  lemma PolicyMeaning(s: State, t: Transport, ack: Ack, cwnd: u32)
    requires ValidTransport(t) && 0 < cwnd <= t.limit && ModelOk(s.model) && s.probe.cycleIndex < 8
    requires 0 < s.initialCwnd <= t.limit && s.pacing != 0 && ack.acked != 0
    ensures var d, bw, bdp := ModePolicy(s, t, ack, cwnd), s.model.bw.max,
        BdpExactCeil(s.model.bw.max, s.model.rtts.min);
      && d.Given?
      && (s.model.mode == Startup ==> d.policy.pacing >= s.pacing)
      && (s.model.mode == Startup && !s.model.pipe.full ==> cwnd <= d.policy.cwnd <= Max(cwnd + ack.acked, Minimum(t)))
      && (s.model.mode == Drain ==> 20 * d.policy.pacing <= 7 * bw)
      && (s.model.mode == ProbeBW ==>
            && d.policy.cwnd <= Max(Minimum(t), 2 * bdp)
            && (if s.probe.cycleIndex == 0 then d.policy.pacing >= bw else d.policy.pacing <= bw))
      && (s.model.mode == ProbeRTT ==> d.policy.cwnd == Minimum(t) && d.policy.pacing <= bw)
  {
    hide Paced, BdpCeil, ScaleCeil, StartupTarget, CeilScaled, BdpExactCeil;
    PacedLaw(s.model.bw.max);
    TargetBounds(s.model.bw.max, RttOf(s.model), t, s.initialCwnd);
    TargetBounds(s.model.bw.max, RttOf(s.model), t, Minimum(t));
    Doubled(BdpCeil(s.model.bw.max, s.model.rtts.min));
  }

  lemma Doubled(x: u64)
    ensures ScaleCeil(x, 512, 256) <= 2 * x
  {
    hide ScaleCeil;
    CeilDivIsLeast(x * 512, 256, 2 * x);
  }

  /** A cycle never starts in its DOWN phase, whatever the seed, and from there the
      phase only ever stays or moves to the next of the eight. */
  lemma CycleOrder(m: Model, p: Probe, s: Rate, lost: u32, now: u64)
    requires p.cycleIndex < 8 && (p.cycleStarted ==> p.cycleStart <= now)
    ensures var q := Cycled(m, p, s, lost, now);
      && q.cycleStarted && q.cycleIndex < 8
      && (!p.cycleStarted ==> q.cycleIndex != 1 && q.cycleStart == now)
      && (p.cycleStarted ==>
            || q.cycleIndex == p.cycleIndex
            || (q.cycleIndex == (p.cycleIndex + 1) % 8 && q.cycleStart == now))
      && (p.cycleStarted && q.cycleIndex != p.cycleIndex && p.cycleIndex != 1 ==> now - p.cycleStart >= m.rtts.min)
  {
    hide BdpCeil, ScaleCeil;
  }

  // -------------------------------------------------------------------------- the wedge

  /** A ledger sample as the controller receives it. */
  function FromLedger(x: RateSampling.RateSample): Rate
    requires x.RateSample? && x.prior <= U64_MAX && x.total <= U64_MAX
  {
    Rate(x.flags.valid, x.flags.appLimited, x.flags.rttValid, x.rate, x.rtt, x.prior, x.total, x.priorInflight)
  }

  /** One byte, sent alone at time `tx` with `before` bytes delivered, acknowledged later. */
  function LoneByte(tx: u64, before: nat): RackOrder.Slot
  { RackOrder.Slot(1, tx, before, 0, 1, 1, false, 0, RackOrder.Snapshot(tx, tx, 1, false)) }

  const SLOW1 := Rate(false, false, true, 0, 2_000_000_000, 0, 1, 1)
  const SLOW2 := Rate(false, false, true, 0, 11_000_000_000, 1, 2, 1)

  /** Over more than a second a single byte gives an RTT but no rate. */
  lemma SlowSamples()
    ensures FromLedger(RateSampling.SampleOf(LoneByte(1, 0), 1, 2_000_000_001)) == SLOW1
    ensures FromLedger(RateSampling.SampleOf(LoneByte(2_000_000_001, 1), 2, 13_000_000_001)) == SLOW2
  {
    assert RateSampling.BytesPerSecond(1, 2_000_000_000) == 0;
    assert RateSampling.BytesPerSecond(1, 11_000_000_000) == 0;
  }

  /** Below the threshold the rejection is real: two ACKs of one byte each, eleven
      seconds apart, whose ledger samples have an RTT but no rate, put a fresh
      controller into ProbeRTT with a zero estimate, and the second is rejected. */
  lemma WedgeWitness()
    ensures var first := AckEvent(Ack(1, 2_000_000_001, 2_000_000_000, SLOW1), 0);
      var second := AckEvent(Ack(1, 13_000_000_001, 2_000_000_000, SLOW2), 0);
      var s := Run(Initial(10000, 1), 1000, 100000, [first]);
      var r := Step(s, 1000, 100000, second);
      && Step(Initial(10000, 1), 1000, 100000, first).Accepted?
      && r.Rejected? && r.s.model.mode == ProbeRTT && r.s.model.bw.max == 0
  {
    hide Step, AckStep, Initial, NeededBw, Ok, NewBw, Ending;
    var a1 := Ack(1, 2_000_000_001, 2_000_000_000, SLOW1);
    var a2 := Ack(1, 13_000_000_001, 2_000_000_000, SLOW2);
    var t := Transport(1000, 0, 100000);
    var s0 := Initial(10000, 1);
    var first := AckEvent(a1, 0);
    InitialOk(t, 10000, 1);
    AckExact(s0, t, a1);
    FirstAck(s0, t, a1);
    var s1 := AckStep(s0, t, a1).s;
    StepOf(s0, t, a1);
    StepOf(s1, t, a2);
    assert [first][..0] == [];
    assert Run(s0, 1000, 100000, []) == s0;
    assert Run(s0, 1000, 100000, [first]) == s1;
    AckExact(s1, t, a2);
    SecondAck(s1, t, a2);
  }

  lemma StepOf(s: State, t: Transport, ack: Ack)
    ensures Step(s, t.mss, t.limit, AckEvent(ack, t.inflight)) == AckStep(s, t, ack)
  {
    hide AckStep;
  }

  /** An ACK with an RTT but no rate leaves a fresh controller in Startup. */
  lemma FirstAck(s: State, t: Transport, ack: Ack)
    requires s == Initial(10000, 1) && t == Transport(1000, 0, 100000)
    requires ack == Ack(1, 2_000_000_001, 2_000_000_000, SLOW1)
    ensures var r := AckStep(s, t, ack);
      && r.s.model.mode == Startup && r.s.model.bw.max == 0 && r.s.model.hasUpdate && r.s.model.lastUpdate == ack.time
      && r.s.model.rtts.hasMin && r.s.model.rtts.minStamp == ack.time && !r.s.recovery.inRecovery
      && NeededBw(r.s.model.mode, r.s.probe.cycleIndex) == 0 && !s.model.hasUpdate
  {
    hide Paced, StartupPolicy, InitialRate;
    InitialRateNonzero(s.cwnd, ack.srtt);
    assert !Admitted(ack.rate, 0);
    var e := Estimated(s.model, ack.rate, ack.time);
    assert e.mode == Startup && e.rtts.hasMin && e.rtts.minStamp == ack.time && !e.pipe.full && !e.rtts.minExpired;
  }

  /** ... and eleven seconds later moves it to ProbeRTT. */
  lemma SecondAck(s: State, t: Transport, ack: Ack)
    requires Ok(s, 1000, 100000) && t == Transport(1000, 0, 100000)
    requires ack == Ack(1, 13_000_000_001, 2_000_000_000, SLOW2)
    requires s.model.mode == Startup && s.model.bw.max == 0 && s.model.hasUpdate && s.model.lastUpdate == 2_000_000_001
    requires s.model.rtts.hasMin && s.model.rtts.minStamp == 2_000_000_001 && !s.recovery.inRecovery
    ensures var r := AckStep(s, t, ack);
      r.s.model.mode == ProbeRTT && r.s.model.bw.max == 0 && NeededBw(r.s.model.mode, r.s.probe.cycleIndex) == 2
  {
    hide Paced, InitialRate;
    InitialRateNonzero(s.cwnd, ack.srtt);
    var e := Estimated(s.model, ack.rate, ack.time);
    assert e.mode == Startup && e.rtts.minExpired && !e.pipe.full && e.bw == s.model.bw;
  }
}
