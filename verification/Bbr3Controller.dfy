/** The BBRv3 controller object: its parts and its two aggregation arrays updated in
    place, each method proved to compute the corresponding step. */
module Bbr3Controller {
  import opened Words
  import opened Scaling
  import opened RoundRing
  import opened Bbr3Model

  class Controller {
    var model: Model
    var probe: Probe
    var cong: Congestion
    const values: array<u64>
    const rounds: array<nat>
    var stamp: u64
    var aggDelivered: u64
    var extra: u64
    var hold: Hold
    var conf: Conf
    var cwnd: u32
    var priorCwnd: u32
    var drainStart: nat
    var pacing: u64

    ghost predicate Valid() { values.Length == 10 && rounds.Length == 10 }

    ghost function Slots(): Ring
      requires Valid()
      reads this, values, rounds
    { Ring(values[..], rounds[..]) }

    ghost function Value(): State
      requires Valid()
      reads this, values, rounds
    { State(model, probe, cong, Agg(Slots(), stamp, aggDelivered, extra), hold, conf, cwnd, priorCwnd, drainStart,
        pacing) }

    constructor (initialCwnd: u32, mss: u32, seed: bv32, now: u64)
      requires ValidInit(initialCwnd, mss, seed, now)
      ensures Valid() && fresh(values) && fresh(rounds) && Value() == Initial(initialCwnd, mss, seed, now)
    {
      hide Scale3;
      model, probe, cong := FRESH_MODEL, FRESH_PROBE, FRESH_CONGESTION;
      values := new u64[10](_ => 0);
      rounds := new nat[10](_ => 0);
      stamp, aggDelivered, extra := now, 0, 0;
      hold := Hold(0, 0, false, false);
      conf := Conf(initialCwnd, mss, seed);
      cwnd, priorCwnd, drainStart := initialCwnd, 0, 0;
      pacing := Scale3(SatMul(initialCwnd, 1000), 277, 100);
      new;
      assert values[..] == ZEROS && rounds[..] == EMPTY_RING.rounds;
    }

    // --------------------------------------------------------------------- estimators

    /** `tcp_shift_bbr3_model_on_ack`. */
    method Estimate(s: Rate, now: u64) returns (ok: bool)
      modifies this`model
      ensures ok == !ModelRejects(old(model), s, now)
      ensures model == if ok then Estimated(old(model), s, now) else old(model)
    {
      hide Elapsed, Threshold;
      if now == 0 || (model.hasUpdate && now < model.lastUpdate) || s.prior > s.delivered { return false; }
      model := model.(lastUpdate := now, hasUpdate := true);
      var round := model.rounds.(start := false);
      if s.delivered != 0 && s.prior >= round.next { round := Rounds(s.delivered, round.count + 1, true); }
      model := model.(rounds := round);
      UpdateRtt(s, now);
      UpdateBw(s);
      UpdatePipe(s);
      return true;
    }

    method UpdateRtt(s: Rate, now: u64)
      modifies this`model
      ensures model == old(model).(rtts := RttUpdated(old(model).rtts, s, now))
    {
      hide Elapsed;
      var r := model.rtts;
      var probeExpired := r.hasProbe && Elapsed(now, r.probeStamp, PROBE_RTT_INTERVAL);
      var minExpired := r.hasMin && Elapsed(now, r.minStamp, MIN_RTT_WINDOW);
      r := r.(expired := probeExpired);
      if s.rttValid && s.rtt != 0 && (!r.hasProbe || s.rtt < r.probe || probeExpired) {
        r := r.(probe := s.rtt, probeStamp := now, hasProbe := true);
      }
      if r.hasProbe && (!r.hasMin || r.probe < r.min || minExpired) {
        r := r.(min := r.probe, minStamp := r.probeStamp, hasMin := true);
      }
      model := model.(rtts := r);
    }

    method UpdateBw(s: Rate)
      modifies this`model
      ensures model == old(model).(bw := BwUpdated(old(model).bw, s))
    {
      var b := model.bw;
      if s.valid && s.rate != 0 && (s.rate >= b.max || !s.appLimited) {
        if b.cycle % 2 == 0 { b := b.(even := Max(s.rate, b.even)); } else { b := b.(odd := Max(s.rate, b.odd)); }
        b := b.(max := Max(b.even, b.odd));
      }
      model := model.(bw := b);
    }

    method UpdatePipe(s: Rate)
      modifies this`model
      ensures model == old(model).(pipe := PipeUpdated(old(model).pipe, old(model).rounds.start, old(model).bw.max, s))
    {
      hide Threshold;
      var p := model.pipe;
      if p.full || !model.rounds.start || !s.valid || s.appLimited || model.bw.max == 0 { return; }
      if p.bw == 0 || model.bw.max >= Threshold(p.bw) {
        p := p.(bw := model.bw.max);
        p := p.(count := 0);
      } else {
        p := p.(count := p.count + 1);
        if p.count >= FULL_BW_ROUNDS { p := p.(full := true); }
      }
      model := model.(pipe := p);
    }

    // ----------------------------------------------------------------- congestion bounds

    /** `tcp_shift_bbr3_congestion_on_ack`; the signal says whether probing went too far. */
    method Congest(x: Signal, a: Ack) returns (ok: bool, excess: bool)
      modifies this`cong
      ensures ok == !CongestionRejects(x, a)
      ensures !ok ==> cong == old(cong)
      ensures ok ==> cong == Congested(old(cong), x, a) && excess == Excess(Gathered(old(cong), x, a), a)
    {
      hide MoreThan, Raised, RoundFinished, Scale3;
      excess := false;
      if x.mss == 0 || x.cwnd == 0 || a.ce > a.acked || (!a.flags.ecnEligible && a.ce != 0)
          || (x.probeUp && !x.probing) {
        return false, false;
      }
      Gather(x, a);
      if a.flags.probeSample && !cong.consumed {
        if MoreThan(a.lost, a.txInflight, 2) { excess := true; }
        if a.flags.ecnEligible && MoreThan(a.ce, a.acked, 50) { excess := true; }
        if excess {
          cong := cong.(consumed := true);
          if !x.appLimited { cong := cong.(longInflight := Max(a.txInflight, Scale3(x.target, 7, 10))); }
        } else if cong.longInflight != UNBOUNDED {
          cong := cong.(longInflight := Max(cong.longInflight, a.txInflight));
          cong := Raised(cong, x, a.acked, a.flags.cwndLimited);
        }
      }
      if a.flags.roundEnd { FinishRound(x, a.flags.ecnEligible); }
      ok := true;
    }

    method Gather(x: Signal, a: Ack)
      modifies this`cong
      ensures cong == Gathered(old(cong), x, a)
    {
      var ecn := cong.ecn;
      if a.ce != 0 { ecn := ecn.(seen := true); }
      if a.flags.ecnEligible { ecn := ecn.(delivered := SatAdd(ecn.delivered, a.acked), ce := SatAdd(ecn.ce, a.ce)); }
      cong := cong.(latestBw := Max(cong.latestBw, x.rate), latestInflight := Max(cong.latestInflight, x.sampled),
          ecn := ecn);
      if a.lost != 0 { cong := cong.(lossSeen := true); }
    }

    method FinishRound(x: Signal, eligible: bool)
      modifies this`cong
      ensures cong == RoundFinished(old(cong), x, eligible)
    {
      hide Blended, LossCut, EcnCut;
      cong := cong.(ecn := Blended(cong.ecn));
      ghost var c := cong;
      LossCutFrame(c, x);
      if !x.probing {
        if cong.lossSeen { cong := LossCut(cong, x); }
        if cong.ecn.seen && eligible { cong := EcnCut(cong, x); }
      }
      cong := cong.(lossSeen := false, ecn := Ecn(0, 0, cong.ecn.alpha, false));
      cong := cong.(latestBw := x.rate, latestInflight := x.sampled);
    }

    // ------------------------------------------------------------------- ACK aggregation

    /** `update_ack_aggregation`. */
    method Aggregate(a: Ack)
      requires Valid() && stamp <= a.now
      modifies this`stamp, this`aggDelivered, this`extra, values, rounds
      ensures Agg(Slots(), stamp, aggDelivered, extra) == Aggregated(old(Value()), a)
    {
      hide Beyond, Recent, Noted;
      var beyond := MeasureBeyond(a);
      Note(model.rounds.count, beyond);
      extra := Scan(model.rounds.count, if model.pipe.full then 10 else 1);
    }

    /** Restart the interval when the rate explains everything in it, then measure. */
    method MeasureBeyond(a: Ack) returns (beyond: u64)
      requires Valid() && stamp <= a.now
      modifies this`stamp, this`aggDelivered
      ensures var s := old(Value());
        (Agg(Slots(), stamp, aggDelivered, extra), beyond) == Beyond(s.agg, a.now, a.acked, CappedRate(s), cwnd)
    {
      hide BdpFloor;
      var bw := RateCap(cong, model.phase, model.bw.max);
      var expected := BdpFloor(bw, a.now - stamp);
      if aggDelivered <= expected {
        aggDelivered := 0;
        stamp := a.now;
        expected := 0;
      }
      aggDelivered := SatAdd(aggDelivered, a.acked);
      beyond := Min(if aggDelivered > expected then aggDelivered - expected else 0, cwnd);
    }

    method Note(round: nat, value: u64)
      requires Valid()
      modifies values, rounds
      ensures Slots() == Noted(old(Slots()), round, value)
    {
      var i := round % SPAN;
      if rounds[i] != round {
        rounds[i] := round;
        values[i] := 0;
      }
      values[i] := Max(values[i], value);
      assert rounds[..] == Noted(old(Slots()), round, value).rounds;
      assert values[..] == Noted(old(Slots()), round, value).values;
    }

    method Scan(round: nat, len: nat) returns (best: u64)
      requires Valid()
      ensures best == Recent(Slots(), round, len, 10)
    {
      best := 0;
      for i := 0 to 10
        invariant best == Recent(Slots(), round, len, i)
      {
        if round >= rounds[i] && round - rounds[i] < len { best := Max(best, values[i]); }
      }
    }

    // -------------------------------------------------------------------------- the phases

    /** `tcp_shift_bbr3_probe_enter`. */
    method EnterProbe(now: u64, delivered: u64) returns (ok: bool)
      modifies this`probe, this`model
      ensures ok == !EnterRejects(old(probe), old(model), now, conf.seed)
      ensures ok ==> probe == Entered(now, delivered, conf.seed) && model == old(model).(phase := Down)
      ensures !ok ==> probe == old(probe) && model == old(model)
    {
      hide DownEntered;
      if EnterRejects(probe, model, now, conf.seed) { return false; }
      probe := Probe(0, 0, 0, 0, conf.seed, 0, 0, 0, AcksInit, Marks(true, false, false, false, false));
      probe := DownEntered(probe, now, delivered);
      model := model.(phase := Down);
      ok := true;
    }

    /** Startup to Drain to ProbeBW; the result of entering is discarded. */
    method DrainPhases(a: Ack)
      requires Valid()
      modifies this`model, this`probe, this`drainStart
      ensures Value() == Drained(old(Value()), a)
    {
      hide BdpFloor, Entered, EnterRejects;
      if model.phase == Startup && model.pipe.full {
        model := model.(phase := Drain);
        drainStart := model.rounds.count;
      }
      if model.phase == Drain {
        var target := BdpFloor(model.bw.max, model.rtts.min);
        if model.rtts.hasMin && (a.inflight <= target || model.rounds.count > drainStart + 3) {
          var discarded := EnterProbe(a.now, a.rate.delivered);
        }
      }
    }

    /** `tcp_shift_bbr3_probe_on_ack`. */
    method ScheduleProbe(x: Seen) returns (ok: bool)
      modifies this`model, this`probe
      ensures var rejects, v := ProbeRejects(old(probe), old(model), x), Scheduled(old(probe), old(model), x);
        && ok == (!rejects && v.ok)
        && (rejects ==> probe == old(probe) && model == old(model))
        && (!rejects ==> probe == v.p && model == old(model).(phase := v.phase, bw := v.bw))
    {
      hide ProbeRejects, TimeToProbe, Waiting, Stopped, Probing, RefillEntered, UpEntered;
      if ProbeRejects(probe, model, x) { return false; }
      if x.s.delivered == x.s.prior { return true; }
      var newRound := NewRound(probe, x.s);
      if newRound {
        probe := probe.(next := x.s.delivered);
        if probe.rounds < U32_MAX { probe := probe.(rounds := probe.rounds + 1); }
      }
      assert probe == Counted(old(probe), x.s);
      ok := Move(x, newRound);
    }

    method Move(x: Seen, newRound: bool) returns (ok: bool)
      modifies this`model, this`probe
      ensures var p, m := old(probe), old(model);
        var v := match m.phase
          case Down => if newRound && p.ackPhase == AcksStopping then Stopped(p, m, x) else Waiting(p, m, x)
          case Cruise => if x.mss > 0 && TimeToProbe(p, m, x)
              then Moved(RefillEntered(p, x.s.delivered), Refill, m.bw, true) else Moved(p, Cruise, m.bw, true)
          case Refill => if newRound then Moved(UpEntered(p, x.s), Up, m.bw, true) else Moved(p, Refill, m.bw, true)
          case Up => Probing(p, m, x, newRound)
          case _ => Moved(p, m.phase, m.bw, false);
        ok == v.ok && probe == v.p && model == m.(phase := v.phase, bw := v.bw)
    {
      hide TimeToProbe, Waiting, RefillEntered, UpEntered, Probing, NextCycle;
      ok := true;
      ProbingShape(probe, model, x, newRound);
      match model.phase {
        case Down =>
          if newRound && probe.ackPhase == AcksStopping {
            probe := probe.(ackPhase := AcksInit);
            if probe.marks.pending && !x.s.appLimited && x.s.valid {
              if model.bw.cycle == U32_MAX { return false; }
              model := model.(bw := NextCycle(model.bw));
            }
            probe := probe.(marks := probe.marks.(pending := false));
            if probe.marks.precautionary && !probe.marks.tooHigh {
              probe := RefillEntered(probe, x.s.delivered);
              model := model.(phase := Refill);
              return;
            }
          }
          var v := Waiting(probe, model, x);
          WaitingShape(probe, model, x);
          probe := v.p;
          model := model.(phase := v.phase);
        case Cruise =>
          if x.mss > 0 && TimeToProbe(probe, model, x) {
            probe := RefillEntered(probe, x.s.delivered);
            model := model.(phase := Refill);
          }
        case Refill =>
          if newRound {
            probe := UpEntered(probe, x.s);
            model := model.(phase := Up);
          }
        case Up =>
          ProbeUp(x, newRound);
        case _ => return false;
      }
    }

    /** The UP phase. */
    method ProbeUp(x: Seen, newRound: bool)
      modifies this`model, this`probe
      requires model.phase == Up
      ensures var v := Probing(old(probe), old(model), x, newRound);
        probe == v.p && model == old(model).(phase := v.phase)
    {
      hide Plateaued, AtPlateau, DownEntered;
      if newRound && probe.ackPhase == AcksStarting { probe := probe.(ackPhase := AcksFeedback); }
      if x.excess {
        probe := Stop(probe, x, true, probe.marks.precautionary);
        model := model.(phase := Down);
      } else if probe.marks.tooHigh && x.longInflight != UNBOUNDED && x.inflight >= x.longInflight {
        probe := Stop(probe, x, false, true);
        model := model.(phase := Down);
      } else if x.cwndLimited && x.longInflight != UNBOUNDED && x.cwnd >= x.longInflight {
        probe := probe.(upBw := x.s.rate, stagnant := 0);
      } else {
        var plateau, precautionary := AtPlateau(probe, x, newRound), probe.marks.precautionary;
        probe := Plateaued(probe, x, newRound);
        if plateau {
          probe := Stop(probe, x, false, precautionary);
          model := model.(phase := Down);
        }
      }
    }

    /** `advance_phase`. */
    method AdvancePhase(a: Ack, excess: bool)
      requires Valid()
      modifies this
      ensures Value() == Advanced(old(Value()), a, excess)
    {
      hide Drained, ProbeRejects, Scheduled, HoldEntered, Held, BeganProbe;
      var was := model.phase;
      DrainPhases(a);
      ghost var drained := Value();
      if InProbeBW(was) {
        ProbeBwKept(drained, old(Value()), a);
        var x := Seen(a.rate, a.now, cong.longInflight, a.inflight, cwnd, conf.mss, a.flags.cwndLimited, excess);
        var discarded := ScheduleProbe(x);
        if was != Refill && model.phase == Refill { cong := BeganProbe(cong); }
        assert Value() == ProbeStep(drained, a, excess);
      }
      UpdateProbeRtt(a);
    }

    /** `update_probe_rtt`. */
    method UpdateProbeRtt(a: Ack)
      requires Valid()
      modifies this
      ensures Value() == Held(HoldEntered(old(Value()), a), a)
    {
      hide Released, RttTarget, SatAdd, BdpFloor;
      if model.phase != ProbeRTT && model.rtts.expired && !a.flags.idleRestart && model.rtts.hasMin {
        priorCwnd := cwnd;
        model := model.(phase := ProbeRTT);
        hold := Hold(0, a.rate.delivered, false, true);
      }
      ghost var entered := Value();
      assert entered == HoldEntered(old(Value()), a);
      if model.phase != ProbeRTT { return; }
      if hold.done == 0 {
        var target := ProbeRttTarget();
        if a.inflight <= target {
          hold := hold.(done := SatAdd(a.now, PROBE_RTT_DURATION), roundDelivered := a.rate.delivered,
              roundDone := false);
        }
        return;
      }
      if a.rate.prior >= hold.roundDelivered && a.rate.delivered > a.rate.prior { hold := hold.(roundDone := true); }
      if !hold.roundDone || a.now <= hold.done { return; }
      Release(a);
    }

    method ProbeRttTarget() returns (target: u64)
      requires Valid()
      ensures target == RttTarget(Value())
    {
      hide BdpFloor;
      target := Max(BdpFloor(model.bw.max, model.rtts.min) / 2, conf.mss * 4);
    }

    method Release(a: Ack)
      requires Valid()
      modifies this
      ensures Value() == Released(old(Value()), a)
    {
      hide Entered, EnterRejects;
      model := model.(rtts := model.rtts.(probeStamp := a.now, expired := false));
      hold := hold.(started := false);
      cong := ResetShort(cong);
      cwnd := Max(cwnd, priorCwnd);
      if model.pipe.full {
        probe := probe.(marks := probe.marks.(initialized := false));
        var entered := EnterProbe(a.now, a.rate.delivered);
        if entered { model := model.(phase := Cruise); }
      } else {
        model := model.(phase := Startup);
      }
    }

    // --------------------------------------------------------------------------- the policy

    /** The state as one value, for the target functions. */
    method Snapshot() returns (s: State)
      requires Valid()
      ensures s == Value()
    {
      s := State(model, probe, cong, Agg(Ring(values[..], rounds[..]), stamp, aggDelivered, extra), hold, conf, cwnd,
          priorCwnd, drainStart, pacing);
    }

    /** `update_policy`. */
    method UpdatePolicy(a: Ack) returns (policy: Policy)
      requires Valid()
      modifies this`pacing, this`cwnd
      ensures var r := Concluded(old(Value()), a); r.Accepted? && Value() == r.s && policy == r.policy
    {
      hide Inflight, NewPacing, NewCwnd;
      var s := Snapshot();
      var inflight := Inflight(s);
      var rate := PacingFor(s);
      var window := WindowFor(s, a, inflight);
      pacing := rate;
      cwnd := window;
      var quantum := Max(Min(pacing / 1000, 65536), conf.mss * 2);
      policy := Policy(pacing, inflight, extra, cwnd, Cap32(quantum), model.phase == ProbeRTT, model.phase);
    }

    /** `tcp_shift_bbr3_controller_on_ack`. */
    method OnAck(a: Ack) returns (accepted: bool, policy: Policy)
      requires Valid()
      modifies this, values, rounds
      ensures var r := AckStep(old(Value()), a);
        Value() == r.s && accepted == r.Accepted? && (accepted ==> policy == r.policy)
    {
      hide Estimated, Congested, Aggregated, Advanced, Concluded, Inflight, Gathered, Excess;
      accepted, policy := false, Policy(0, 0, 0, 0, 0, false, Startup);
      var malformed := IsMalformed(a);
      if malformed { return; }
      var phase := model.phase;
      var ok := Estimate(a.rate, a.now);
      if !ok { return; }
      var snapshot := Snapshot();
      var x := SignalOf(snapshot, phase, a);
      var excess;
      ok, excess := Congest(x, a);
      if !ok { return; }
      policy := React(a, excess);
      accepted := true;
    }

    /** What follows once no sub-step can reject any more. */
    method React(a: Ack, excess: bool) returns (policy: Policy)
      requires Valid() && stamp <= a.now
      modifies this, values, rounds
      ensures var s := old(Value());
        var r := Concluded(Advanced(s.(agg := Aggregated(s, a)), a, excess), a);
        r.Accepted? && Value() == r.s && policy == r.policy
    {
      hide Aggregated, Advanced, Concluded;
      Aggregate(a);
      assert Value() == old(Value()).(agg := Aggregated(old(Value()), a));
      AdvancePhase(a, excess);
      policy := UpdatePolicy(a);
    }

    method IsMalformed(a: Ack) returns (b: bool)
      requires Valid()
      ensures b == Malformed(Value(), a)
    {
      b := a.now == 0 || a.now < stamp || a.now < model.lastUpdate || (a.lost != 0 && !a.flags.validatedLoss)
        || (a.ce != 0 && !a.flags.ecnEligible) || a.ce > a.acked || a.rate.prior > a.rate.delivered || !a.rate.valid;
    }
  }

  method PacingFor(s: State) returns (pacing: u64)
    ensures pacing == NewPacing(s)
  {
    hide Scale3;
    var bw, gain := CappedRate(s), PacingGain(s.model.phase);
    var desired := Scale3(bw, gain.0, gain.1);
    desired := Scale3(desired, 99, 100);
    pacing := s.pacing;
    if desired != 0 && (s.model.pipe.full || desired > pacing) { pacing := desired; }
  }

  method WindowFor(s: State, a: Ack, inflight: u64) returns (cwnd: u32)
    requires inflight == Inflight(s)
    ensures cwnd == NewCwnd(s, a)
  {
    hide Inflight, RttTarget, CwndCap;
    var next: u64;
    if s.model.pipe.full {
      next := Min(SatAdd(s.cwnd, a.acked), inflight);
    } else if s.cwnd < inflight || a.rate.delivered < s.conf.initialCwnd {
      next := SatAdd(s.cwnd, a.acked);
    } else {
      next := s.cwnd;
    }
    next := Max(next, s.conf.mss * 4);
    if s.model.phase == ProbeRTT { next := Min(next, RttTarget(s)); }
    next := Min(next, CwndCap(s.cong, s.model.phase, s.conf.mss));
    next := Max(next, s.conf.mss * 4);
    cwnd := Cap32(next);
  }

  lemma LossCutFrame(c: Congestion, x: Signal)
    ensures LossCut(c, x).ecn == c.ecn && LossCut(c, x).lossSeen == c.lossSeen
  {
    hide Scale3;
  }

  lemma ProbingShape(p: Probe, m: Model, x: Seen, newRound: bool)
    ensures Probing(p, m, x, newRound).ok && Probing(p, m, x, newRound).bw == m.bw
  {
    hide Plateaued, AtPlateau, Stop;
  }

  lemma WaitingShape(p: Probe, m: Model, x: Seen)
    ensures Waiting(p, m, x).ok && Waiting(p, m, x).bw == m.bw
  {
    hide TimeToProbe, TimeToCruise, RefillEntered;
  }

  /** In ProbeBW the drain stage changes nothing. */
  lemma ProbeBwKept(d: State, s: State, a: Ack)
    requires d == Drained(s, a) && InProbeBW(s.model.phase)
    ensures d == s
  {
    hide BdpFloor, Entered;
  }
}
