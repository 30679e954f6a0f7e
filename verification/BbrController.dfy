/** Compact BBR as the program runs it: a bandwidth filter over its slot array and a
    controller that updates its parts in place. Each method is proved to compute
    the corresponding step, so the laws of whole runs hold of these objects. */
module BbrController {
  import opened Words
  import opened Scaling
  import opened RoundRing
  import opened BbrModel

  class BandwidthFilter {
    const slots: array<u64>
    var round: nat
    var started: bool
    var max: u64

    ghost predicate Valid() { slots.Length == 10 }

    ghost function Value(): Filter
      requires Valid()
      reads this, slots
    { Filter(slots[..], round, started, max) }

    constructor ()
      ensures Valid() && fresh(slots) && Value() == EMPTY
    {
      slots := new u64[10](_ => 0);
      round, started, max := 0, false, 0;
      new;
      assert slots[..] == ZEROS;
    }

    /** `tcp_shift_bbr_recompute_max_bw`. */
    method RecomputeMax()
      requires Valid()
      modifies this`max
      ensures max == MaxOf(slots[..])
    {
      hide MaxOf;
      var best := 0;
      MaxOfNothing();
      for i := 0 to 10
        invariant best == MaxOf(slots[..i])
      {
        best := Max(best, slots[i]);
        MaxOfOneMore(slots[..], i);
      }
      assert slots[..10] == slots[..];
      max := best;
    }

    method ClearAll()
      requires Valid()
      modifies slots
      ensures slots[..] == ZEROS
    {
      for i := 0 to 10
        invariant forall k :: 0 <= k < i ==> slots[k] == 0
      {
        slots[i] := 0;
      }
    }

    /** Zero the slots of the rounds skipped since the last recorded one. */
    method ClearSkipped(delta: nat)
      requires Valid() && delta < 10
      modifies slots
      ensures slots[..] == Cleared(old(slots[..]), round, delta)
    {
      for step := 1 to delta + 1
        invariant forall k :: 0 <= k < 10 ==> slots[k] == if Stale(k, round, step - 1) then 0 else old(slots[k])
      {
        slots[(round + step) % SPAN] := 0;
        forall k | 0 <= k < 10
          ensures Stale(k, round, step) <==> Stale(k, round, step - 1) || k == (round + step) % SPAN
        { StaleGrows(k, round, step); }
      }
    }

    method Age(now: nat)
      requires Valid() && (started ==> round <= now)
      modifies this, slots
      ensures Value() == Aged(old(Value()), now)
    {
      hide MaxOf;
      if !started {
        round, started := now, true;
        return;
      }
      var delta := now - round;
      if delta == 0 { return; }
      if delta >= 10 { ClearAll(); } else { ClearSkipped(delta); }
      round := now;
      RecomputeMax();
    }

    /** Age to the current round, then raise its slot to the sampled rate. */
    method Record(now: nat, rate: u64)
      requires Valid() && (started ==> round <= now)
      modifies this, slots
      ensures Value() == Admit(old(Value()), now, rate)
    {
      hide MaxOf, Aged;
      Age(now);
      ghost var aged := Value();
      var slot := now % SPAN;
      if rate > slots[slot] { slots[slot] := rate; }
      assert slots[..] == aged.slots[now % SPAN := Max(aged.slots[now % SPAN], rate)];
      RecomputeMax();
    }
  }

  lemma MaxOfNothing()
    ensures MaxOf([]) == 0
  {
  }

  lemma MaxOfOneMore(s: seq<u64>, i: nat)
    requires i < |s|
    ensures MaxOf(s[..i + 1]) == Max(MaxOf(s[..i]), s[i])
  {
    assert s[..i + 1][..i] == s[..i];
  }

  lemma StaleGrows(k: nat, round: nat, step: nat)
    requires k < 10 && 1 <= step < 10
    ensures Stale(k, round, step) <==> Stale(k, round, step - 1) || k == (round + step) % SPAN
  {
  }

  class Controller {
    const filter: BandwidthFilter
    var rtts: Rtts
    var pipe: Pipe
    var rounds: Rounds
    var lastUpdate: u64
    var hasUpdate: bool
    var mode: Mode
    var probe: Probe
    var recovery: Recovery
    var initialCwnd: u32
    var cwnd: u32
    var pendingLoss: u32
    var delivered: u64
    var pacing: u64
    var seenRtt: bool

    ghost predicate Valid()
      reads this, filter
    { filter.Valid() && (filter.started ==> filter.round <= rounds.count) }

    ghost function Estimates(): Model
      requires filter.Valid()
      reads this, filter, filter.slots
    { Model(filter.Value(), rtts, pipe, rounds, lastUpdate, hasUpdate, mode) }

    ghost function Value(): State
      requires filter.Valid()
      reads this, filter, filter.slots
    { State(Estimates(), probe, recovery, initialCwnd, cwnd, pendingLoss, delivered, pacing, seenRtt) }

    constructor (t: Transport, initial: u32, seed: u32)
      requires ValidInit(t, initial)
      ensures Valid() && fresh(filter) && fresh(filter.slots) && Value() == Initial(initial, seed)
    {
      hide InitialRate;
      filter := new BandwidthFilter();
      rtts := Rtts(0, 0, 0, 0, false, false, false, false);
      pipe := Pipe(0, 0, false, false);
      rounds := Rounds(0, 0, false);
      lastUpdate, hasUpdate, mode := 0, false, Startup;
      probe := Probe(0, 0, 0, 0, seed % 7, false, false);
      recovery := Recovery(0, false, false);
      initialCwnd, cwnd, pendingLoss, delivered, seenRtt := initial, initial, 0, 0, false;
      pacing := InitialRate(initial, 0);
    }

    // --------------------------------------------------------------------- estimators

    method UpdateRound(s: Rate)
      modifies this`rounds
      ensures rounds == RoundUpdated(old(rounds), s)
    {
      rounds := rounds.(start := false);
      if s.delivered == 0 || s.delivered < s.priorDelivered { return; }
      if s.priorDelivered >= rounds.next {
        rounds := rounds.(next := s.delivered);
        rounds := rounds.(count := rounds.count + 1);
        rounds := rounds.(start := true);
      }
    }

    method UpdateMaxBw(s: Rate)
      requires Valid()
      modifies filter, filter.slots
      ensures Valid() && filter.Value() == BwUpdated(old(filter.Value()), rounds.count, s)
    {
      hide Admit;
      if !s.valid || s.rate == 0 { return; }
      if s.appLimited && s.rate < filter.max { return; }
      ghost var before := filter.Value();
      filter.Record(rounds.count, s.rate);
      RecordedRound(before, rounds.count, s.rate);
    }

    method CheckFullBw(s: Rate)
      modifies this`pipe
      ensures pipe == PipeChecked(old(pipe), mode, rounds.start, filter.max, s)
    {
      hide FullBwThreshold;
      pipe := pipe.(now := false);
      if mode != Startup || pipe.full || !rounds.start || !s.valid || s.rate == 0 || s.appLimited { return; }
      var threshold := FullBwThreshold(pipe.bw);
      if pipe.bw == 0 || filter.max >= threshold {
        pipe := pipe.(bw := filter.max);
        pipe := pipe.(count := 0);
        return;
      }
      pipe := pipe.(count := pipe.count + 1);
      if pipe.count >= FULL_BW_ROUNDS { pipe := pipe.(now := true, full := true); }
    }

    method UpdateMinRtt(s: Rate, now: u64)
      modifies this`rtts
      ensures rtts == RttUpdated(old(rtts), s, now)
    {
      hide Elapsed;
      if !s.rttValid || s.rtt == 0 {
        rtts := rtts.(probeExpired := false, minExpired := false);
        return;
      }
      rtts := rtts.(probeExpired := rtts.hasProbe && Elapsed(now, rtts.probeStamp, PROBE_RTT_INTERVAL));
      if !rtts.hasProbe || s.rtt < rtts.probe || rtts.probeExpired {
        rtts := rtts.(probe := s.rtt, probeStamp := now, hasProbe := true);
      }
      rtts := rtts.(minExpired := rtts.hasMin && Elapsed(now, rtts.minStamp, MIN_RTT_FILTER));
      if !rtts.hasMin || rtts.probe < rtts.min || rtts.minExpired {
        rtts := rtts.(min := rtts.probe, minStamp := rtts.probeStamp, hasMin := true);
      }
    }

    /** `tcp_shift_bbr_model_on_ack`. */
    method Estimate(s: Rate, now: u64) returns (ok: bool)
      requires Valid()
      modifies this`rtts, this`pipe, this`rounds, this`lastUpdate, this`hasUpdate, filter, filter.slots
      ensures Valid()
      ensures ok == !(old(hasUpdate) && now < old(lastUpdate))
      ensures Estimates() == if ok then Estimated(old(Estimates()), s, now) else old(Estimates())
    {
      hide BwUpdated, PipeChecked, RttUpdated;
      if hasUpdate && now < lastUpdate { return false; }
      lastUpdate := now;
      hasUpdate := true;
      UpdateRound(s);
      UpdateMaxBw(s);
      CheckFullBw(s);
      UpdateMinRtt(s, now);
      return true;
    }

    // ----------------------------------------------------------------------- the modes

    method CheckDrain(s: Rate)
      requires filter.Valid()
      modifies this`mode
      ensures Estimates() == DrainChecked(old(Estimates()), s)
    {
      hide BdpCeil;
      if mode == Startup && pipe.full { mode := Drain; }
      if mode != Drain || !s.valid || filter.max == 0 || !rtts.hasMin || rtts.min == 0 { return; }
      var target := BdpCeil(filter.max, rtts.min);
      if target == 0 { return; }
      if s.priorInflight <= target { mode := ProbeBW; }
    }

    method UpdateProbeRtt(t: Transport, s: Rate, current: u32, now: u64) returns (exited: bool)
      requires Valid()
      modifies this`mode, this`rtts, this`rounds, this`probe
      ensures Valid()
      ensures (Estimates(), probe, exited) == ProbeRttUpdated(old(Estimates()), old(probe), t, s, current, now)
    {
      hide ProbeRttHeld;
      if mode != ProbeRTT && rtts.minExpired {
        if current > probe.priorCwnd { probe := probe.(priorCwnd := current); }
        probe := probe.(doneStamp := 0, roundDone := false);
        probe := probe.(cycleStarted := false);
        mode := ProbeRTT;
      }
      assert (Estimates(), probe) == ProbeRttEntered(old(Estimates()), old(probe), current);
      exited := HoldProbeRtt(t, s, now);
    }

    method HoldProbeRtt(t: Transport, s: Rate, now: u64) returns (exited: bool)
      requires Valid()
      modifies this`mode, this`rtts, this`rounds, this`probe
      ensures Valid()
      ensures (Estimates(), probe, exited) == ProbeRttHeld(old(Estimates()), old(probe), t, s, now)
    {
      hide Minimum, SatAdd;
      exited := false;
      if mode != ProbeRTT { return; }
      if probe.doneStamp == 0 {
        if s.priorInflight <= Minimum(t) {
          probe := probe.(doneStamp := SatAdd(now, PROBE_RTT_DURATION), roundDone := false);
          rounds := rounds.(next := s.delivered);
        }
        return;
      }
      if rounds.start { probe := probe.(roundDone := true); }
      if !probe.roundDone || now < probe.doneStamp { return; }
      rtts := rtts.(minStamp := now, minExpired := false);
      probe := probe.(doneStamp := 0, roundDone := false);
      if pipe.full {
        mode := ProbeBW;
        probe := ResetCycle(probe, now);
      } else {
        mode := Startup;
        probe := probe.(cycleStarted := false);
      }
      exited := true;
    }

    /** `tcp_shift_bbr_probe_bw_update`, in ProbeBW. */
    method UpdateCycle(s: Rate, now: u64) returns (ok: bool)
      requires filter.Valid()
      modifies this`probe
      ensures ok == !(old(probe).cycleStarted && now < old(probe).cycleStart)
      ensures probe == if ok then Cycled(Estimates(), old(probe), s, pendingLoss, now) else old(probe)
    {
      hide BdpCeil, ScaleCeil;
      ok := true;
      if !probe.cycleStarted {
        probe := ResetCycle(probe, now);
        return;
      }
      if now < probe.cycleStart { return false; }
      if filter.max == 0 || !rtts.hasMin || rtts.min == 0 { return; }
      var full := now - probe.cycleStart >= rtts.min;
      var bdp := BdpCeil(filter.max, rtts.min);
      if bdp == 0 { return; }
      var gain, advance := Gain(probe), false;
      if gain > 256 {
        advance := full && (pendingLoss != 0 || s.priorInflight >= ScaleCeil(bdp, gain, 256));
      } else if gain < 256 {
        advance := full || s.priorInflight <= bdp;
      } else {
        advance := full;
      }
      if advance { probe := probe.(cycleIndex := (probe.cycleIndex + 1) % 8, cycleStart := now); }
    }

    // ---------------------------------------------------------------------- the events

    /** `tcp_shift_bbr_controller_on_ack`. */
    method OnAck(t: Transport, ack: Ack) returns (accepted: bool, policy: Policy)
      requires Valid()
      modifies this, filter, filter.slots
      ensures Valid()
      ensures var r := AckStep(old(Value()), t, ack);
        Value() == r.s && accepted == r.Accepted? && (accepted ==> policy == r.policy)
    {
      hide Estimated, RecoveryStep, InitialRate;
      accepted, policy := false, Policy(0, 0, 0);
      if ack.acked == 0 || ack.time == 0 || !ValidTransport(t) || cwnd == 0 || cwnd > t.limit { return; }
      var ok := SeeRtt(ack);
      if !ok { return; }
      ok := Estimate(ack.rate, ack.time);
      if !ok { return; }
      if ack.rate.delivered > delivered { delivered := ack.rate.delivered; }
      accepted, policy := Recover(t, ack);
    }

    /** The first usable smoothed RTT replaces the bootstrap pacing rate. */
    method SeeRtt(ack: Ack) returns (ok: bool)
      requires Valid()
      modifies this`pacing, this`seenRtt
      ensures Valid()
      ensures ok == !(!old(seenRtt) && ack.srtt != 0 && InitialRate(cwnd, ack.srtt) == 0)
      ensures Value() == if ok then RttSeen(old(Value()), ack) else old(Value())
    {
      hide InitialRate;
      if !seenRtt && ack.srtt != 0 {
        var rate := InitialRate(cwnd, ack.srtt);
        if rate == 0 { return false; }
        pacing := rate;
        seenRtt := true;
      }
      ok := true;
    }

    /** Packet conservation, when in recovery. */
    method Recover(t: Transport, ack: Ack) returns (accepted: bool, policy: Policy)
      requires Valid()
      modifies this
      ensures Valid()
      ensures var r := RecoveryStep(old(Value()), t, ack);
        Value() == r.s && accepted == r.Accepted? && (accepted ==> policy == r.policy)
    {
      hide ModeStep;
      var current, owned := cwnd, false;
      if recovery.inRecovery {
        if !ValidWindow(cwnd, t) { return false, Policy(0, 0, 0); }
        current := FloorSub(cwnd, 0, t.mss);
        if rounds.start { recovery := recovery.(conservation := false); }
        if recovery.conservation {
          current := Max(current, Conserved(t, ack.acked));
          owned := true;
        }
        current := Min(current, t.limit);
        assert current == RecoveryCwnd(recovery, cwnd, t, ack.acked);
      }
      accepted, policy := AdvanceModes(t, ack, current, owned);
    }

    method AdvanceModes(t: Transport, ack: Ack, recovered: u32, owned: bool) returns (accepted: bool, policy: Policy)
      requires Valid()
      modifies this
      ensures Valid()
      ensures var r := ModeStep(old(Value()), t, ack, recovered, owned);
        Value() == r.s && accepted == r.Accepted? && (accepted ==> policy == r.policy)
    {
      hide DrainChecked, ProbeRttUpdated, Cycled, Published, RestoredCwnd;
      accepted, policy := false, Policy(0, 0, 0);
      CheckDrain(ack.rate);
      if BadWindow(recovered, t) { return; }
      var exited := UpdateProbeRtt(t, ack.rate, recovered, ack.time);
      var current := if exited then RestoredCwnd(probe, recovered, t.limit) else recovered;
      if current == 0 { return; }
      if mode == ProbeBW {
        var ok := UpdateCycle(ack.rate, ack.time);
        if !ok { return; }
      }
      accepted, policy := Publish(t, ack, current, recovered, owned);
    }

    method Publish(t: Transport, ack: Ack, current: u32, recovered: u32, owned: bool)
      returns (accepted: bool, policy: Policy)
      requires Valid()
      modifies this`cwnd, this`pacing, this`pendingLoss
      ensures Valid()
      ensures var r := Published(old(Value()), t, ack, current, recovered, owned);
        Value() == r.s && accepted == r.Accepted? && (accepted ==> policy == r.policy)
    {
      hide StartupPolicy, DrainPolicy, ProbeBwPolicy, ProbeRttPolicy;
      var m := Snapshot();
      var d := match mode
        case Startup => StartupPolicy(m, t, ack, initialCwnd, current, pacing)
        case Drain => DrainPolicy(m, t, ack, current)
        case ProbeBW => ProbeBwPolicy(m, probe, t, ack, current)
        case ProbeRTT => ProbeRttPolicy(m, t);
      if d.Refused? || BadWindow(d.policy.cwnd, t) || d.policy.pacing == 0 { return false, Policy(0, 0, 0); }
      policy := d.policy;
      if owned { policy := policy.(cwnd := recovered); }
      cwnd := policy.cwnd;
      pacing := policy.pacing;
      pendingLoss := 0;
      accepted := true;
    }

    /** The estimates as one value, for the policy functions. */
    method Snapshot() returns (m: Model)
      requires filter.Valid()
      ensures m == Estimates()
    {
      m := Model(Filter(filter.slots[..], filter.round, filter.started, filter.max), rtts, pipe, rounds, lastUpdate,
          hasUpdate, mode);
    }

    method NoteLoss(lost: u32) returns (accepted: bool)
      requires Valid()
      modifies this`pendingLoss
      ensures var r := Step(old(Value()), 0, 0, LossNote(lost)); Value() == r.s && accepted == r.Quiet?
    {
      if lost == 0 { return false; }
      pendingLoss := if pendingLoss > U32_MAX - lost then U32_MAX else pendingLoss + lost;
      accepted := true;
    }

    method RecoveryEnter(t: Transport, acked: u32, lost: u32) returns (accepted: bool, policy: Policy)
      requires Valid()
      modifies this
      ensures Valid()
      ensures var r := EnterStep(old(Value()), t, acked, lost);
        Value() == r.s && accepted == r.Accepted? && (accepted ==> policy == r.policy)
    {
      accepted, policy := false, Policy(0, 0, 0);
      if lost == 0 || !ValidTransport(t) || cwnd == 0 || cwnd > t.limit { return; }
      rounds := rounds.(next := delivered, start := false);
      pendingLoss := lost;
      if recovery.inRecovery || !ValidWindow(cwnd, t) { return; }
      recovery := Recovery(cwnd, true, true);
      cwnd := Conserved(t, acked);
      return true, Policy(cwnd, t.limit, pacing);
    }

    method RecoveryNoteLoss(t: Transport, lost: u32) returns (accepted: bool, policy: Policy)
      requires Valid()
      modifies this`cwnd, this`pendingLoss
      ensures Valid()
      ensures var r := RecoveryLossStep(old(Value()), t, lost);
        Value() == r.s && accepted == r.Accepted? && (accepted ==> policy == r.policy)
    {
      if !recovery.inRecovery || lost == 0 || !ValidTransport(t) || cwnd < t.mss
          || cwnd > t.limit { return false, Policy(0, 0, 0); }
      var noted := NoteLoss(lost);
      cwnd := if lost >= cwnd || cwnd - lost < t.mss then t.mss else cwnd - lost;
      return true, Policy(cwnd, t.limit, pacing);
    }

    method RecoveryExit(t: Transport) returns (accepted: bool, policy: Policy)
      requires Valid()
      modifies this`cwnd, this`pendingLoss, this`recovery
      ensures Valid()
      ensures var r := ExitStep(old(Value()), t);
        Value() == r.s && accepted == r.Accepted? && (accepted ==> policy == r.policy)
    {
      if !ValidTransport(t) || cwnd == 0 || cwnd > t.limit || !recovery.inRecovery || recovery.priorCwnd == 0 {
        return false, Policy(0, 0, 0);
      }
      cwnd := Min(if cwnd > recovery.priorCwnd then cwnd else recovery.priorCwnd, t.limit);
      recovery := recovery.(inRecovery := false, conservation := false);
      pendingLoss := 0;
      return true, Policy(cwnd, t.limit, pacing);
    }

    method OnTimeout(t: Transport, postInflight: u32) returns (accepted: bool, policy: Policy)
      requires Valid()
      modifies this
      ensures Valid()
      ensures var r := TimeoutStep(old(Value()), t, postInflight);
        Value() == r.s && accepted == r.Accepted? && (accepted ==> policy == r.policy)
    {
      if !ValidTransport(t) || cwnd == 0 || cwnd > t.limit { return false, Policy(0, 0, 0); }
      pipe := pipe.(bw := 0, now := false);
      rounds := rounds.(start := true);
      pendingLoss := 0;
      recovery := Recovery(0, false, false);
      cwnd := Max(AddLimit(postInflight, t.mss, t.limit), t.mss);
      return true, Policy(cwnd, t.limit, pacing);
    }
  }

  lemma RecordedRound(f: Filter, round: nat, rate: u64)
    requires f.started ==> f.round <= round
    ensures Admit(f, round, rate).round == round
  {
    hide MaxOf;
  }
}
