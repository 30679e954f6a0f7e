/** The CUBIC controller object, updating its state in place, statement by
    statement; every method is proved to compute the corresponding step. */
module CubicController {
  import opened Words
  import opened CubicMath
  import opened CubicModel

  class Controller {
    var m: Model
    var h: Hystart

    constructor (t: Transport, initial: u32, ssthresh: u32, minCwnd: u32)
      requires ValidInit(t, initial, ssthresh, minCwnd)
      ensures m == Initial(t, initial, ssthresh, minCwnd) && h == ARMED
    {
      m := Model(Q16(initial, t.mss), Q16(ssthresh, t.mss), 0, 0, 0, 0, 0, 0, 0, 0, 0,
                 t.mss, minCwnd, 0, false, false, false, false, true);
      h := ARMED;
      new;
      var policy := Publish(t);
    }

    method Normalize(t: Transport)
      modifies this`m
      ensures m == Normalized(old(m), t)
    {
      hide Q16;
      m := m.(cwnd := Max(m.cwnd, MinQ(m.minCwnd, t)));
      m := m.(cwnd := Min(m.cwnd, LimitQ(t)));
      m := m.(ssthresh := Min(m.ssthresh, LimitQ(t)));
    }

    method Publish(t: Transport) returns (policy: Policy)
      modifies this`m
      ensures m == Published(old(m), t) && policy == PolicyOf(old(m), t)
    {
      hide Q16, BytesOf;
      Normalize(t);
      var minimum := EffectiveMin(m.minCwnd, t);
      var cwnd := BytesOf(m.cwnd, t.mss, t.limit);
      var ssthresh := BytesOf(m.ssthresh, t.mss, t.limit);
      if cwnd < minimum {
        cwnd := minimum;
        m := m.(cwnd := Q16(cwnd, t.mss));
      }
      if ssthresh == 0 {
        ssthresh := minimum;
        m := m.(ssthresh := Q16(ssthresh, t.mss));
      }
      policy := Policy(cwnd, ssthresh);
    }

    method FinishHystart()
      modifies this
      ensures (m, h) == Finished(old(m), old(h))
    {
      if !h.exitPending { return; }
      m := m.(ssthresh := m.cwnd);
      m := m.(cwndPrior := m.cwnd, wMax := m.cwnd, hasWMax := true, k := 0);
      m := m.(epochActive := false, afterTimeout := false);
      h := h.(enabled := false, css := false, ackCss := false, exitPending := false, complete := true);
      h := h.(exits := h.exits + 1);
    }

    /** `tcp_shift_cubic_start_epoch`, with the searched cube root. */
    method StartEpoch(now: u64)
      modifies this`m
      ensures m == EpochStarted(old(m), now)
    {
      hide FloorCbrt, SatMul;
      m := m.(epochStart := now, cwndEpoch := m.cwnd, wEst := m.cwnd, lastTarget := m.cwnd, epochActive := true);
      if m.cwndPrior == 0 { m := m.(cwndPrior := m.cwnd); }
      if m.afterTimeout || !m.hasWMax {
        m := m.(wMax := m.cwnd, hasWMax := true, k := 0, afterTimeout := false);
        return;
      }
      if m.wMax <= m.cwnd {
        m := m.(k := 0);
        return;
      }
      var difference := m.wMax - m.cwnd;
      var radicand := SatMul(difference, SCALE);
      var root := CuberootFloor(radicand);
      m := m.(k := root);
    }

    /** The tail of `tcp_shift_cubic_model_on_ack`. */
    method Avoid(t: Transport, acked: u32, now: u64, srtt: u64)
      modifies this`m
      ensures m == Avoided(old(m), t, acked, now, srtt)
    {
      hide BytesOf, Window, TimeQ10, Q16, SatAdd, RatioQ16, Sub64;
      var limitQ := LimitQ(t);
      var cwndBytes := BytesOf(m.cwnd, t.mss, t.limit);
      m := m.(wEst := GrownWEst(m, acked, cwndBytes, limitQ));
      var elapsed := TimeQ10(Sub64(now, m.epochStart));
      var current := Window(m.wMax, m.k, elapsed);
      if current < m.wEst {
        m := m.(cwnd := Max(m.cwnd, m.wEst));
        m := m.(lastTarget := m.wEst);
        return;
      }
      var targetTime := SatAdd(elapsed, NonzeroTimeQ10(srtt));
      var target := Window(m.wMax, m.k, targetTime);
      var upper := SatAdd(m.cwnd, m.cwnd / 2);
      upper := Min(upper, limitQ);
      target := Max(target, m.cwnd);
      target := Min(target, upper);
      m := m.(lastTarget := target);
      m := m.(cwnd := Stepped(m.cwnd, target));
    }

    method Pause(now: u64)
      modifies this`m
      ensures m == Paused(old(m), now)
    {
      if m.paused { return; }
      m := m.(appSince := if m.ackEvents != 0 then m.lastAck else now);
      m := m.(paused := true);
    }

    method Resume(now: u64)
      modifies this`m
      ensures m == Resumed(old(m), now)
    {
      if !m.paused { return; }
      if m.epochActive && now >= m.appSince {
        m := m.(epochStart := SatAdd(m.epochStart, now - m.appSince));
      }
      m := m.(paused := false, appSince := 0);
    }

    method SlowStart(t: Transport, acked: u32)
      modifies this`m
      ensures m == SlowStarted(old(m), h, t, acked)
    {
      hide BytesOf, Q16;
      var bytes := BytesOf(m.cwnd, t.mss, t.limit);
      var increase := acked;
      if h.ackCss { increase := increase / CSS_GROWTH_DIVISOR; }
      if increase > t.limit - bytes { bytes := t.limit; } else { bytes := bytes + increase; }
      m := m.(cwnd := Q16(bytes, t.mss));
    }

    method ModelOnAck(t: Transport, acked: u32, appLimited: bool, now: u64, srtt: u64)
      returns (ok: bool, policy: Policy)
      modifies this
      ensures var r := ModelAck(old(m), old(h), t, acked, appLimited, now, srtt);
              r == if ok then Accepted(m, h, policy) else Rejected(m, h)
    {
      hide Avoided, EpochStarted, SyncedMss, Published, Normalized, PolicyOf, Paused, Resumed, SlowStarted, Finished;
      policy := Policy(0, 0);
      if acked == 0 || t.mss == 0 || t.limit < t.mss || m.mss == 0 { return false, policy; }
      m := SyncedMss(m, t.mss);
      if m.ackEvents != 0 && now < m.lastAck { return false, policy; }
      Normalize(t);
      var avoidance := m.cwnd >= m.ssthresh;
      if !appLimited && avoidance && srtt == 0 { return false, policy; }
      if appLimited && avoidance {
        Pause(now);
        m := m.(lastAck := now, ackEvents := m.ackEvents + 1);
        FinishHystart();
        policy := Publish(t);
        return true, policy;
      }
      Resume(now);
      m := m.(lastAck := now, ackEvents := m.ackEvents + 1);
      if m.cwnd < m.ssthresh {
        SlowStart(t, acked);
        FinishHystart();
        policy := Publish(t);
        return true, policy;
      }
      if !m.epochActive { StartEpoch(now); }
      Avoid(t, acked, now, srtt);
      policy := Publish(t);
      return true, policy;
    }

    /** `tcp_shift_cubic_hystart_on_ack`. */
    method HystartOnAck(t: Transport, ack: Ack)
      modifies this`h
      ensures h == HystartAck(m, old(h), t, ack)
    {
      h := h.(ackCss := h.css);
      if !h.enabled || h.complete || m.cwnd >= m.ssthresh { return; }
      if m.mss != t.mss { return; }
      var newRound := h.nextRound == 0;
      if !newRound && ack.deliveredTotal != 0 && ack.deliveredTotal >= h.nextRound { newRound := true; }
      if newRound {
        if h.css && h.nextRound != 0 {
          h := h.(cssRounds := h.cssRounds + 1);
          if h.cssRounds >= CSS_ROUNDS {
            h := h.(exitPending := true);
            return;
          }
        }
        StartRound(t, ack);
      }
      SampleRtt(ack);
    }

    method StartRound(t: Transport, ack: Ack)
      modifies this`h
      ensures h == RoundStarted(old(h), t, ack)
    {
      h := h.(lastMin := h.currentMin);
      h := h.(currentMin := U64_MAX, samples := 0);
      h := h.(nextRound := SatAdd(ack.deliveredTotal, t.inflight));
    }

    method SampleRtt(ack: Ack)
      modifies this`h
      ensures h == Sampled(old(h), ack)
    {
      if !ack.rttValid || ack.rtt == 0 { return; }
      if ack.rtt < h.currentMin { h := h.(currentMin := ack.rtt); }
      if h.samples != U32_MAX { h := h.(samples := h.samples + 1); }
      Judge();
    }

    method Judge()
      modifies this`h
      ensures h == Judged(old(h))
    {
      hide SatAdd, DelayThreshold;
      if h.css {
        if h.samples >= MIN_SAMPLES && h.currentMin < h.baseline {
          h := h.(css := false, baseline := U64_MAX, cssRounds := 0);
        }
        return;
      }
      if h.samples < MIN_SAMPLES || h.lastMin == U64_MAX || h.currentMin == U64_MAX { return; }
      var trigger := SatAdd(h.lastMin, DelayThreshold(h.lastMin));
      if h.currentMin >= trigger { h := h.(baseline := h.currentMin, css := true, cssRounds := 0); }
    }

    /** `tcp_shift_cubic_controller_on_ack`. */
    method OnAck(t: Transport, ack: Ack) returns (ok: bool, policy: Policy)
      modifies this
      ensures var r := AckStep(old(m), old(h), t, ack);
              r == if ok then Accepted(m, h, policy) else Rejected(m, h)
    {
      hide ModelAck, HystartAck, SlowStartCredit;
      if ack.time == 0 || t.mss == 0 { return false, Policy(0, 0); }
      HystartOnAck(t, ack);
      var acked := ack.acked;
      if m.cwnd < m.ssthresh { acked := SlowStartCredit(acked, t.mss, h.paced); }
      ok, policy := ModelOnAck(t, acked, ack.appLimited, ack.time, ack.srtt);
    }

    method Reduce(t: Transport, floorSegments: u32)
      requires m.mss > 0
      modifies this`m
      ensures m == Reduced(old(m), t, floorSegments)
    {
      hide SyncedMss, Normalized, Q16, BetaFlight, EffectiveMin;
      m := SyncedMss(m, t.mss);
      Normalize(t);
      var prior := m.cwnd;
      NormalizedBound(old(m), t);
      if m.fastConvergence && m.hasWMax && prior < m.wMax {
        m := m.(wMax := prior * 17 / 20);
      } else {
        m := m.(wMax := prior);
      }
      m := m.(hasWMax := true, cwndPrior := prior);
      var reduced := Max(BetaFlight(t, floorSegments), EffectiveMin(m.minCwnd, t));
      m := m.(ssthresh := Q16(reduced, t.mss));
      m := m.(cwnd := m.ssthresh, epochActive := false, paused := false, appSince := 0, afterTimeout := false, k := 0);
    }

    lemma NormalizedBound(was: Model, t: Transport)
      requires was.mss > 0
      ensures Normalized(SyncedMss(was, t.mss), t).cwnd <= Q16_BOUND
    {
      hide Q16, SyncedMss;
    }

    method OnLoss(t: Transport, lost: u32) returns (ok: bool, policy: Policy)
      modifies this
      ensures var r := Step(old(m), old(h), t.mss, t.limit, LossEvent(lost, t.inflight));
              r == if ok then Accepted(m, h, policy) else Rejected(m, h)
    {
      hide Reduced, Published, PolicyOf;
      if lost == 0 || t.mss == 0 || t.limit < t.mss || m.mss == 0 { return false, Policy(0, 0); }
      Reduce(t, 2);
      policy := Publish(t);
      h := Disabled(h);
      return true, policy;
    }

    method OnEcn(t: Transport) returns (ok: bool, policy: Policy)
      modifies this
      ensures var r := Step(old(m), old(h), t.mss, t.limit, EcnEvent(t.inflight));
              r == if ok then Accepted(m, h, policy) else Rejected(m, h)
    {
      hide Reduced, Published, PolicyOf;
      if t.mss == 0 || t.limit < t.mss || m.mss == 0 { return false, Policy(0, 0); }
      Reduce(t, 1);
      policy := Publish(t);
      h := Disabled(h);
      return true, policy;
    }

    method OnTimeout(t: Transport) returns (ok: bool, policy: Policy)
      modifies this
      ensures var r := Step(old(m), old(h), t.mss, t.limit, TimeoutEvent(t.inflight));
              r == if ok then Accepted(m, h, policy) else Rejected(m, h)
    {
      hide Published, PolicyOf, SyncedMss, Normalized, BetaFlight, Q16;
      if t.mss == 0 || t.limit < t.mss || m.mss == 0 { return false, Policy(0, 0); }
      m := SyncedMss(m, t.mss);
      Normalize(t);
      m := m.(cwndPrior := m.cwnd);
      m := m.(ssthresh := Q16(BetaFlight(t, 2), t.mss));
      m := m.(cwnd := MinQ(m.minCwnd, t));
      m := m.(epochActive := false, paused := false, appSince := 0, afterTimeout := true, k := 0);
      policy := Publish(t);
      h := Disabled(h);
      return true, policy;
    }
  }
}
