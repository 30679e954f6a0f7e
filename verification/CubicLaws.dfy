/** The laws of whole CUBIC connections: the published window, the HyStart++
    lifecycle and the epoch clock over every run, and exactly when an ACK can
    shrink the window. */
module CubicLaws {
  import opened Words
  import opened CubicMath
  import opened CubicModel
  import opened CubicRuns

  // ------------------------------------------------------------------------------ runs

  /** Any sequence of events at any transport; a rejected event still leaves what
      the controller wrote before rejecting. */
  datatype Input = Input(mss: u32, limit: u32, event: Event)

  ghost function Next(m: Model, h: Hystart, i: Input): Result { Step(m, h, i.mss, i.limit, i.event) }

  ghost function Run(m: Model, h: Hystart, inputs: seq<Input>): (Model, Hystart)
  {
    if inputs == [] then (m, h)
    else
      var (m1, h1) := Run(m, h, inputs[..|inputs| - 1]);
      var r := Next(m1, h1, inputs[|inputs| - 1]);
      (r.m, r.h)
  }

  predicate SameTransport(inputs: seq<Input>, mss: u32, limit: u32)
  { forall i :: 0 <= i < |inputs| ==> inputs[i].mss == mss && inputs[i].limit == limit }

  // ---------------------------------------------------------------- HyStart++ lifecycle

  /** Any event at all: the lifecycle invariant holds, and a finished observer
      stays finished with its exit count frozen. */
  lemma LifecycleStep(m: Model, h: Hystart, i: Input)
    requires Lifecycle(h)
    ensures var r := Next(m, h, i);
      && Lifecycle(r.h)
      && h.exits <= r.h.exits
      && (h.complete ==> r.h.complete && !r.h.enabled && r.h.exits == h.exits)
      && (r.Accepted? && !i.event.AckEvent? ==> r.h.complete && r.h.exits == h.exits)
  {
    hide Published, PolicyOf, SlowStarted, Avoided, EpochStarted, Reduced, TimedOut, SyncedMss, HystartAck,
      SlowStartCredit,
      Normalized, Paused, Resumed, Lifecycle;
    var t := Transport(i.mss, i.event.inflight, i.limit);
    DisabledOk(h);
    if i.event.AckEvent? {
      var h1 := HystartAck(m, h, t, i.event.ack);
      ObserverFacts(m, h, t, i.event.ack);
      ExitedOk(h1);
    }
  }

  lemma DisabledOk(h: Hystart)
    requires Lifecycle(h)
    ensures Lifecycle(Disabled(h)) && Disabled(h).complete && Disabled(h).exits == h.exits && h.enabled == !h.complete
  {
  }

  lemma ExitedOk(h: Hystart)
    requires Lifecycle(h)
    ensures h.exitPending ==> Lifecycle(Exited(h)) && !h.complete && h.enabled
  {
  }

  /** Over every run from an armed observer, at any transport: at most one exit, CSS
      past its fifth completed round only while an exit pends, and after the prefix
      in which it finished (an exit, a loss, an ECN mark or a timeout) it is never
      armed again. */
  lemma {:induction false} HystartLifecycle(m: Model, inputs: seq<Input>, k: nat)
    requires k <= |inputs|
    ensures var h, h0 := Run(m, ARMED, inputs).1, Run(m, ARMED, inputs[..k]).1;
      && Lifecycle(h) && h0.exits <= h.exits <= 1 && (Overran(h) ==> h.exitPending)
      && (h0.complete ==> h.complete && !h.enabled && h.exits == h0.exits)
  {
    hide Next;
    if inputs == [] {
    } else {
      var n := |inputs| - 1;
      var (m1, h1) := Run(m, ARMED, inputs[..n]);
      if k == |inputs| {
        assert inputs[..k] == inputs;
        HystartLifecycle(m, inputs[..n], n);
      } else {
        assert inputs[..n][..k] == inputs[..k];
        HystartLifecycle(m, inputs[..n], k);
      }
      LifecycleStep(m1, h1, inputs[n]);
    }
  }

  /** CSS has passed its fifth completed round. */
  predicate Overran(h: Hystart) { h.css && h.cssRounds >= CSS_ROUNDS }

  /** The model as an ACK at this transport first sees it. */
  function Adjusted(m: Model, t: Transport): Model
    requires m.mss > 0
  { Normalized(SyncedMss(m, t.mss), t) }

  predicate Backwards(m: Model, ack: Ack) { m.ackEvents != 0 && ack.time < m.lastAck }

  /** The ACKs that do not consume an exit: those the model rejects, and those that a
      new limit or MSS has moved into congestion avoidance, unless they are
      application-limited. */
  predicate Unconsumed(m: Model, t: Transport, ack: Ack)
  {
    || ack.acked == 0 || t.limit < t.mss || m.mss == 0 || Backwards(m, ack)
    || (!ack.appLimited && Adjusted(m, t).cwnd >= Adjusted(m, t).ssthresh)
  }

  /** At any transport: exactly when an ACK is accepted, and exactly when a raised or
      waiting exit stays pending or CSS passes its fifth round. */
  lemma PendingExit(m: Model, h: Hystart, t: Transport, ack: Ack)
    requires Lifecycle(h) && ack.time != 0 && t.mss != 0
    ensures var r, raised := AckStep(m, h, t, ack), h.exitPending || FifthRound(m, h, t, ack);
      && (r.h.exitPending <==> raised && Unconsumed(m, t, ack))
      && (raised && !Unconsumed(m, t, ack) ==> r.Accepted? && r.h.exits == h.exits + 1 && r.h.complete && !r.h.css)
      && (!Overran(h) ==> (Overran(r.h) <==> FifthRound(m, h, t, ack) && Unconsumed(m, t, ack)))
      && (r.Accepted? <==>
            && ack.acked != 0 && t.limit >= t.mss && m.mss != 0 && !Backwards(m, ack)
            && (!ack.appLimited && Adjusted(m, t).cwnd >= Adjusted(m, t).ssthresh ==> ack.srtt != 0))
  {
    hide HystartAck, SlowStartCredit, Published, PolicyOf, Avoided, EpochStarted, SlowStarted, SyncedMss, Normalized,
      Lifecycle;
    ObserverFacts(m, h, t, ack);
    if !Overran(h) { OverrunFacts(m, h, t, ack); }
    LifecycleOf(h);
    LifecycleOf(HystartAck(m, h, t, ack));
    CreditNonzero(ack.acked, t.mss, HystartAck(m, h, t, ack).paced);
    if m.mss != 0 { SyncedClock(m, t); PauseFrame(Adjusted(m, t), ack.time); }
  }

  /** Adjusting to a transport and stopping the clock leave the ACK history and the
      window comparison alone. */
  lemma SyncedClock(m: Model, t: Transport)
    requires m.mss > 0
    ensures var s, n := SyncedMss(m, t.mss), Adjusted(m, t);
      && s.ackEvents == m.ackEvents && s.lastAck == m.lastAck
  {
    hide Rescaled, Q16;
  }

  lemma PauseFrame(m: Model, now: u64)
    ensures Resumed(m, now).cwnd == m.cwnd && Resumed(m, now).ssthresh == m.ssthresh
  {
  }

  lemma CreditNonzero(acked: u32, mss: u32, paced: bool)
    requires mss != 0
    ensures SlowStartCredit(acked, mss, paced) == 0 <==> acked == 0
  {
  }

  lemma OverrunFacts(m: Model, h: Hystart, t: Transport, ack: Ack)
    requires Lifecycle(h) && !Overran(h)
    ensures Overran(HystartAck(m, h, t, ack)) <==> FifthRound(m, h, t, ack)
  {
  }

  /** At a fixed transport only two kinds of ACK leave an exit pending: one that
      acknowledges nothing, and one whose clock runs backwards. Any other consumes
      it after its quarter growth; W_max and the prior window are then the grown
      window and slow start is over, so CUBIC starts there with K = 0. */
  lemma FixedPendingExit(m: Model, h: Hystart, t: Transport, ack: Ack)
    requires WindowOk(m, t.mss, t.limit) && Joint(m, h) && ack.time != 0
    ensures var r, raised := AckStep(m, h, t, ack), h.exitPending || FifthRound(m, h, t, ack);
      && (r.h.exitPending <==> raised && (ack.acked == 0 || Backwards(m, ack)))
      && (raised && !r.h.exitPending ==>
            var credit := SlowStartCredit(ack.acked, t.mss, h.paced);
            var increase := if h.css then credit / 4 else credit;
            var grown := Q16(Min(Bytes(m.cwnd, t.mss, t.limit) + increase, t.limit), t.mss);
            && r.Accepted? && r.h.exits == h.exits + 1 && !r.h.enabled && r.h.complete
            && r.m.wMax == r.m.cwndPrior == grown && r.m.hasWMax && r.m.k == 0 && !r.m.epochActive
            && r.m.ssthresh <= r.m.cwnd)
  {
    hide Loose, HystartAck, SlowStartCredit, Published, PolicyOf, Avoided, EpochStarted, Paused, BytesOf, AckStep, Q16,
      Resumed, Lifecycle;
    AckShape(m, h, t, ack);
    ObserverFacts(m, h, t, ack);
    WindowLoose(m, t.mss, t.limit);
    LifecycleOf(h);
    PacedFixed(m, h, t, ack);
    ResumedFacts(m, ack.time);
    var h1 := HystartAck(m, h, t, ack);
    var credit := Credit(m, h1, t, ack);
    CreditNonzero(ack.acked, t.mss, h1.paced);
    PublishFacts(Finished(SlowStarted(Base(m, ack.time), h1, t, credit), h1).0, t);
    PublishedStored(Finished(SlowStarted(Base(m, ack.time), h1, t, credit), h1).0, t);
  }

  lemma PacedFixed(m: Model, h: Hystart, t: Transport, ack: Ack)
    ensures HystartAck(m, h, t, ack).paced == h.paced
  {
  }

  // -------------------------------------------------------------------- the whole window

  lemma InitialOk(t: Transport, initial: u32, ssthresh: u32, minCwnd: u32)
    requires ValidInit(t, initial, ssthresh, minCwnd) && t.mss <= Q_ONE
    ensures WindowOk(Initial(t, initial, ssthresh, minCwnd), t.mss, t.limit)
    ensures var m := Initial(t, initial, ssthresh, minCwnd);
      Joint(m, ARMED) && m.minCwnd == minCwnd && !m.epochActive && m.ackEvents == 0
  {
    hide Q16, BytesOf, Cube;
    var raw := Model(Q16(initial, t.mss), Q16(ssthresh, t.mss), 0, 0, 0, 0, 0, 0, 0, 0, 0,
                     t.mss, minCwnd, 0, false, false, false, false, true);
    CubeOfZero();
    Q16Mono(ssthresh, t.limit, t.mss);
    PublishedOk(raw, t);
  }

  /** One event at a fixed transport, accepted or rejected: a rejection leaves the
      window model exactly as it was. */
  lemma FixedStep(m: Model, h: Hystart, mss: u32, limit: u32, e: Event)
    requires WindowOk(m, mss, limit) && Joint(m, h)
    ensures var r := Step(m, h, mss, limit, e);
      && WindowOk(r.m, mss, limit) && Joint(r.m, r.h) && r.m.minCwnd == m.minCwnd
      && (r.Rejected? ==> r.m == m)
      && (r.Accepted? ==>
            && !r.h.exitPending && !Overran(r.h) && r.policy.cwnd == Visible(r.m, mss, limit)
            && Floor(m, mss, limit) <= r.policy.cwnd <= limit)
  {
    hide WindowOk, Lifecycle, HystartAck, SlowStartCredit, Outcome, Published, PolicyOf, Avoided, EpochStarted,
      Reduced, TimedOut, Visible, Floor, AckStep;
    WindowKept(m, h, mss, limit, e);
    WindowLoose(m, mss, limit);
    LifecycleStep(m, h, Input(mss, limit, e));
    var t := Transport(mss, e.inflight, limit);
    if e.AckEvent? {
      ObserverFacts(m, h, t, e.ack);
      AckShape(m, h, t, e.ack);
      NothingPends(m, h, t, e.ack);
    }
    LifecycleOf(Step(m, h, mss, limit, e).h);
  }

  /** No accepted ACK leaves an exit pending. */
  lemma NothingPends(m: Model, h: Hystart, t: Transport, ack: Ack)
    requires WindowOk(m, t.mss, t.limit) && Joint(m, h)
    ensures var r := AckStep(m, h, t, ack); r.Accepted? ==> !r.h.exitPending
  {
    hide WindowOk, Lifecycle, HystartAck, SlowStartCredit, Published, PolicyOf, Avoided, EpochStarted, SlowStarted,
      AckStep;
    AckShape(m, h, t, ack);
    ObserverFacts(m, h, t, ack);
    LifecycleOf(h);
  }

  lemma LifecycleOf(h: Hystart)
    requires Lifecycle(h)
    ensures (h.css || h.exitPending ==> h.enabled) && (Overran(h) ==> h.exitPending) && h.enabled == !h.complete
  {
  }

  /** Every run from a valid initialisation keeps the window invariant, so every
      published window lies in [effective minimum, limit]. */
  lemma {:induction false} WindowOverRuns(t: Transport, initial: u32, ssthresh: u32, minCwnd: u32, inputs: seq<Input>)
    requires ValidInit(t, initial, ssthresh, minCwnd) && t.mss <= Q_ONE
    requires SameTransport(inputs, t.mss, t.limit)
    ensures var (m, h) := Run(Initial(t, initial, ssthresh, minCwnd), ARMED, inputs);
      && WindowOk(m, t.mss, t.limit) && Joint(m, h) && m.minCwnd == minCwnd
      && Q16(minCwnd, t.mss) <= m.cwnd <= Q16(t.limit, t.mss)
      && Visible(m, t.mss, t.limit) - 1 <= Bytes(m.cwnd, t.mss, t.limit) <= Visible(m, t.mss, t.limit)
  {
    hide WindowOk, Step, Joint, Bytes, Initial;
    InitialOk(t, initial, ssthresh, minCwnd);
    if inputs != [] {
      var n := |inputs| - 1;
      WindowOverRuns(t, initial, ssthresh, minCwnd, inputs[..n]);
      var (m, h) := Run(Initial(t, initial, ssthresh, minCwnd), ARMED, inputs[..n]);
      FixedStep(m, h, t.mss, t.limit, inputs[n].event);
    }
    StoredWindow(Run(Initial(t, initial, ssthresh, minCwnd), ARMED, inputs).0, t);
  }

  /** The stored window is the published one, up to the byte that Q16 may lose at
      the floor. */
  lemma StoredWindow(m: Model, t: Transport)
    requires WindowOk(m, t.mss, t.limit)
    ensures FloorQ(m, t.mss, t.limit) <= m.cwnd <= TopQ(t.mss, t.limit)
    ensures Visible(m, t.mss, t.limit) - 1 <= Bytes(m.cwnd, t.mss, t.limit) <= Visible(m, t.mss, t.limit)
  {
    hide Q16, BytesOf, Cube, Floor;
    FloorFacts(m, t.mss, t.limit);
    RoundTrip(Floor(m, t.mss, t.limit), t.mss, t.limit);
    BytesMono(FloorQ(m, t.mss, t.limit), m.cwnd, t.mss, t.limit);
  }

  /** At a fixed transport no accepted event of any run leaves CSS past its fifth
      round or an exit pending. */
  lemma CssEnds(t: Transport, initial: u32, ssthresh: u32, minCwnd: u32, inputs: seq<Input>, e: Event)
    requires ValidInit(t, initial, ssthresh, minCwnd) && t.mss <= Q_ONE
    requires SameTransport(inputs, t.mss, t.limit)
    ensures var (m, h) := Run(Initial(t, initial, ssthresh, minCwnd), ARMED, inputs);
      var r := Step(m, h, t.mss, t.limit, e);
      r.Accepted? ==> !r.h.exitPending && (r.h.css ==> r.h.cssRounds < CSS_ROUNDS)
  {
    hide WindowOk, Step, Joint, Bytes, Initial;
    WindowOverRuns(t, initial, ssthresh, minCwnd, inputs);
    var (m, h) := Run(Initial(t, initial, ssthresh, minCwnd), ARMED, inputs);
    FixedStep(m, h, t.mss, t.limit, e);
  }

  lemma BytesLimited(m: Model, t: Transport)
    ensures Bytes(m.cwnd, t.mss, t.limit) <= t.limit
  {
  }

  // ------------------------------------------------------------------------- no shrinking

  /** Slow-start growth in bytes: a quarter of the credit during CSS. */
  function Increase(credit: u32, css: bool): u32 { if css then credit / CSS_GROWTH_DIVISOR else credit }

  /** The guard that decides whether an ACK can cost a byte. */
  predicate LosesByte(m: Model, css: bool, credit: u32, mss: u32, limit: u32)
    requires mss > 0
  {
    var x := Bytes(m.cwnd, mss, limit);
    m.cwnd < m.ssthresh && Increase(credit, css) == 0 && x * Q_ONE % mss != 0 && x > Floor(m, mss, limit)
  }

  /** An accepted ACK shrinks the window exactly when it is a CSS ACK of fewer than
      four bytes at a window that Q16 cannot represent, and then by one byte.
      Any ACK granting a byte of growth never shrinks it. */
  lemma ShrinkExact(m: Model, h: Hystart, t: Transport, ack: Ack)
    requires WindowOk(m, t.mss, t.limit) && Joint(m, h)
    requires AckStep(m, h, t, ack).Accepted?
    ensures t.mss > 0
    ensures var r, before := AckStep(m, h, t, ack), Visible(m, t.mss, t.limit);
      var credit := Credit(m, HystartAck(m, h, t, ack), t, ack);
      && (r.policy.cwnd < before <==> LosesByte(m, h.css, credit, t.mss, t.limit))
      && r.policy.cwnd >= before - 1
  {
    hide WindowOk, Lifecycle, HystartAck, SlowStartCredit, Published, PolicyOf, Avoided, EpochStarted, Visible, Floor,
      SlowStarted, AckStep, LosesByte;
    AckShape(m, h, t, ack);
    ObserverFacts(m, h, t, ack);
    WindowLoose(m, t.mss, t.limit);
    var now, h1 := ack.time, HystartAck(m, h, t, ack);
    var base, credit := Base(m, now), Credit(m, h1, t, ack);
    ResumedFacts(m, now);
    PausedFacts(m, now);
    ClockOnly(m, base, t.mss, t.limit);
    if m.cwnd < m.ssthresh {
      SlowStartShrink(base, h1, t, credit);
      LosesByteSame(m, base, h1.ackCss, credit, t);
    } else {
      LosesNothing(m, h.css, credit, t);
      if ack.appLimited {
        var limited := Acked(Paused(m, now), now);
        ClockOnly(m, limited, t.mss, t.limit);
        IdlePublish(limited, t);
      } else {
        if !base.epochActive { EpochLoose(base, t.mss, t.limit, now); EpochMin(base, now); }
        var e := InEpoch(base, now);
        AvoidedLoose(e, t, credit, now, ack.srtt);
        AvoidedMin(e, t, credit, now, ack.srtt);
        GrowthVisible(e, Avoided(e, t, credit, now, ack.srtt), t);
        VisibleSame(base, e, t);
      }
    }
  }

  lemma LosesByteSame(m: Model, m': Model, css: bool, credit: u32, t: Transport)
    requires t.mss > 0 && m'.cwnd == m.cwnd && m'.ssthresh == m.ssthresh && m'.minCwnd == m.minCwnd
    ensures LosesByte(m, css, credit, t.mss, t.limit) == LosesByte(m', css, credit, t.mss, t.limit)
  {
    hide BytesOf, Increase;
  }

  lemma LosesNothing(m: Model, css: bool, credit: u32, t: Transport)
    requires t.mss > 0 && m.cwnd >= m.ssthresh
    ensures !LosesByte(m, css, credit, t.mss, t.limit)
  {
    hide BytesOf, Increase;
  }

  lemma VisibleSame(m: Model, m': Model, t: Transport)
    requires m'.cwnd == m.cwnd && m'.minCwnd == m.minCwnd
    ensures Visible(m, t.mss, t.limit) == Visible(m', t.mss, t.limit)
  {
    hide BytesOf;
  }

  lemma IdlePublish(m: Model, t: Transport)
    requires WindowOk(m, t.mss, t.limit)
    ensures PolicyOf(m, t).cwnd == Visible(m, t.mss, t.limit)
  {
    hide Q16, BytesOf, Cube, PolicyOf, Published, Normalized;
    NormalizedIdle(m, t);
    PublishedOk(m, t);
  }

  /** A window that grows in Q16 never shrinks in bytes. */
  lemma GrowthVisible(m: Model, grown: Model, t: Transport)
    requires WindowOk(m, t.mss, t.limit) && Loose(grown, t.mss, t.limit)
    requires m.cwnd <= grown.cwnd && grown.minCwnd == m.minCwnd
    ensures PolicyOf(grown, t).cwnd >= Visible(m, t.mss, t.limit)
  {
    hide Q16, BytesOf, Cube, PolicyOf, Published;
    PublishedOk(grown, t);
    FloorFacts(m, t.mss, t.limit);
    var n := Normalized(grown, t);
    BytesMono(m.cwnd, n.cwnd, t.mss, t.limit);
  }

  lemma SlowStartShrink(m: Model, h: Hystart, t: Transport, credit: u32)
    requires WindowOk(m, t.mss, t.limit) && m.cwnd < m.ssthresh
    ensures t.mss > 0
    ensures var p := PolicyOf(Finished(SlowStarted(m, h, t, credit), h).0, t).cwnd;
      var before := Visible(m, t.mss, t.limit);
      && (p < before <==> LosesByte(m, h.ackCss, credit, t.mss, t.limit))
      && p >= before - 1
  {
    hide Q16, BytesOf, Cube, PolicyOf, Published, FixedTransport, SlowStarted, Finished, Floor, FloorQ;
    WindowLoose(m, t.mss, t.limit);
    var x := Bytes(m.cwnd, t.mss, t.limit);
    var y := Min(x + Increase(credit, h.ackCss), t.limit);
    BytesLimited(m, t);
    WindowFacts(m, t);
    SlowStartPublishes(m, h, t, credit, y);
    ByteSteps(m, x, y, t);
    FullStep(m, x, t);
  }

  lemma WindowFacts(m: Model, t: Transport)
    requires WindowOk(m, t.mss, t.limit)
    ensures FixedTransport(t.mss, t.limit) && FloorQ(m, t.mss, t.limit) <= m.cwnd <= TopQ(t.mss, t.limit)
  {
    hide Q16, BytesOf, Cube, FloorQ, TopQ;
  }

  /** A window already at the limit in bytes is not shrunk by growing it. */
  lemma FullStep(m: Model, x: u32, t: Transport)
    requires WindowOk(m, t.mss, t.limit) && x == Bytes(m.cwnd, t.mss, t.limit)
    ensures t.mss > 0 && (x == t.limit ==> x * Q_ONE % t.mss == 0)
  {
    hide Q16, BytesOf, Cube, Floor;
    BytesMono(m.cwnd, TopQ(t.mss, t.limit), t.mss, t.limit);
    RoundTrip(t.limit, t.mss, t.limit);
  }

  lemma SlowStartPublishes(m: Model, h: Hystart, t: Transport, credit: u32, y: u32)
    requires WindowOk(m, t.mss, t.limit) && m.cwnd < m.ssthresh
    requires y == Min(Bytes(m.cwnd, t.mss, t.limit) + Increase(credit, h.ackCss), t.limit)
    ensures PolicyOf(Finished(SlowStarted(m, h, t, credit), h).0, t).cwnd
      == Max(Bytes(Max(Q16(y, t.mss), FloorQ(m, t.mss, t.limit)), t.mss, t.limit), Floor(m, t.mss, t.limit))
  {
    hide Q16, BytesOf, Cube, PolicyOf, Published, FixedTransport, Floor;
    WindowFacts(m, t);
    FixedFacts(t.mss, t.limit);
    var g := Finished(SlowStarted(m, h, t, credit), h).0;
    SlowStartLoose(m, h, t, credit);
    PublishedOk(g, t);
    FloorSame(m, g, t);
    FloorSame(m, Normalized(g, t), t);
    assert g.cwnd == Q16(y, t.mss);
    Q16Mono(y, t.limit, t.mss);
    FloorFacts(m, t.mss, t.limit);
    FloorIsMin(g, t);
  }

  lemma FixedFacts(mss: u32, limit: u32)
    requires FixedTransport(mss, limit)
    ensures 0 < mss <= Q_ONE && mss <= limit
  {
  }

  /** The window in bytes after moving it from x to y bytes. */
  lemma ByteSteps(m: Model, x: u32, y: u32, t: Transport)
    requires FixedTransport(t.mss, t.limit) && x <= y <= t.limit
    requires FloorQ(m, t.mss, t.limit) <= m.cwnd <= TopQ(t.mss, t.limit) && x == Bytes(m.cwnd, t.mss, t.limit)
    ensures var floor := Floor(m, t.mss, t.limit);
      var after := Max(Bytes(Max(Q16(y, t.mss), FloorQ(m, t.mss, t.limit)), t.mss, t.limit), floor);
      && (y > x ==> after >= Max(x, floor))
      && (y == x && x * Q_ONE % t.mss == 0 ==> after == Max(x, floor))
      && (y == x && x * Q_ONE % t.mss != 0 ==> after == Max(x - 1, floor))
  {
    hide Q16, BytesOf, EffectiveMin;
    var floor, q := Floor(m, t.mss, t.limit), Q16(y, t.mss);
    FloorFacts(m, t.mss, t.limit);
    RoundTrip(y, t.mss, t.limit);
    BytesMono(FloorQ(m, t.mss, t.limit), m.cwnd, t.mss, t.limit);
    if q < FloorQ(m, t.mss, t.limit) {
      BytesMono(q, FloorQ(m, t.mss, t.limit), t.mss, t.limit);
      if y > floor { Q16Mono(floor, y, t.mss); }
    }
  }

  // ----------------------------------------------------------------------- reductions

  lemma BetaMeaning(t: Transport, floorSegments: u32)
    ensures BetaFlight(t, floorSegments) == Min(Max(t.inflight * 7 / 10, Min(t.mss * floorSegments, t.limit)), t.limit)
  {
    MulNonNegative(t.mss, floorSegments);
  }

  // ------------------------------------------------------------------ growth per ACK

  /** In the cubic branch the target is at most 1.5 cwnd and one ACK adds at most
      half a segment; in the Reno branch the window becomes W_est or stays. */
  lemma GrowthPerAck(e: Model, t: Transport, acked: u32, now: u64, srtt: u64)
    requires WindowOk(e, t.mss, t.limit)
    ensures var a := Avoided(e, t, acked, now, srtt);
      var reno := Window(e.wMax, e.k, TimeQ10(Sub64(now, e.epochStart))) < a.wEst;
      && (reno ==> a.cwnd == Max(e.cwnd, a.wEst) && a.lastTarget == a.wEst)
      && (!reno ==>
            && e.cwnd <= a.lastTarget <= e.cwnd + e.cwnd / 2
            && e.cwnd <= a.cwnd <= e.cwnd + Q_ONE / 2
            && e.cwnd > 0 && a.cwnd - e.cwnd == (a.lastTarget - e.cwnd) * Q_ONE / e.cwnd)
  {
    hide WindowOk, Avoided, Window, TimeQ10, Stepped, Sub64;
    AvoidedForms(e, t, acked, now, srtt);
    var target := Avoided(e, t, acked, now, srtt).lastTarget;
    if e.cwnd <= target <= e.cwnd + e.cwnd / 2 { SteppedExact(e.cwnd, target); }
  }

  lemma AvoidedForms(e: Model, t: Transport, acked: u32, now: u64, srtt: u64)
    requires WindowOk(e, t.mss, t.limit)
    ensures 0 < e.cwnd <= Q16_BOUND
    ensures var a := Avoided(e, t, acked, now, srtt);
      if Window(e.wMax, e.k, TimeQ10(Sub64(now, e.epochStart))) < a.wEst
      then a.cwnd == Max(e.cwnd, a.wEst) && a.lastTarget == a.wEst
      else e.cwnd <= a.lastTarget <= e.cwnd + e.cwnd / 2 && a.cwnd == Stepped(e.cwnd, a.lastTarget)
  {
    hide Q16, BytesOf, Cube, Window, TimeQ10, GrownWEst, Stepped, Sub64, NonzeroTimeQ10, Loose;
    WindowFacts(e, t);
    FloorFacts(e, t.mss, t.limit);
  }

  lemma SteppedExact(cwnd: u64, target: u64)
    requires 0 < cwnd <= Q16_BOUND && cwnd <= target <= cwnd + cwnd / 2
    ensures Stepped(cwnd, target) == cwnd + (target - cwnd) * Q_ONE / cwnd
    ensures cwnd <= Stepped(cwnd, target) <= cwnd + Q_ONE / 2
  {
    var d := target - cwnd;
    assert Sub64(target, cwnd) == d;
    DivMono(d * Q_ONE, Q_ONE / 2 * cwnd + 0, cwnd);
    DivOfMultiplePlus(Q_ONE / 2, 0, cwnd);
    DivOfMultiplePlus(0, 0, cwnd);
    DivFacts(d * Q_ONE, cwnd);
  }
}
