/** The congestion-avoidance step against the growth audit's own formulas, which
    work on unbounded integers and know nothing of saturation or limits. */
module CubicAudit {
  import opened Words
  import opened CubicMath
  import opened CubicModel
  import opened CubicRuns
  import opened CubicLaws
  import opened CubicClock

  /** What the audit recomputes for one ACK. */
  datatype Row = Row(k: int, wEst: int, target: int, cwnd: int)

  /** The fields of a logged ACK that the audit reads. */
  datatype Log = Log(
    acked: u32, preCwndBytes: u32, srtt: u64, now: u64, preActive: bool, epochStart: u64,
    preCwnd: u64, preWEst: u64, prePrior: u64, preK: u64, wMax: u64)

  function AuditTime(ns: nat): nat { ns / NS_PER_SEC * 1024 + ns % NS_PER_SEC * 1024 / NS_PER_SEC }
  function AuditRtt(ns: nat): nat { if ns != 0 && AuditTime(ns) == 0 then 1 else AuditTime(ns) }

  ghost function AuditK(g: Log): nat
  {
    if g.preActive then g.preK
    else if g.wMax > g.preCwnd then FloorCbrt((g.wMax - g.preCwnd) * SCALE)
    else 0
  }

  /** W_est after the ACK if the window were `bytes` bytes. */
  function WEstAt(g: Log, bytes: u32): nat
    requires bytes > 0
  {
    var base := if g.preActive then g.preWEst else g.preCwnd;
    var increment := RatioQ16(g.acked, bytes);
    base + if base < g.prePrior then increment * 9 / 17 else increment
  }

  function AuditWEst(g: Log): nat
    requires g.preCwndBytes > 0
  { WEstAt(g, g.preCwndBytes) }

  /** The audit's per-ACK recomputation. */
  ghost function AuditRow(g: Log): Row
    requires g.preCwndBytes > 0 && g.preCwnd > 0 && g.epochStart <= g.now
  {
    AuditBranch(g, AuditK(g), AuditWEst(g))
  }

  function AuditBranch(g: Log, k: nat, wEst: nat): Row
    requires g.preCwnd > 0 && g.epochStart <= g.now
  {
    var elapsed := AuditTime(g.now - g.epochStart);
    if AuditWindow(g.wMax, k, elapsed) < wEst then Row(k, wEst, wEst, Max(g.preCwnd, wEst))
    else
      var target := Min(Max(AuditWindow(g.wMax, k, elapsed + AuditRtt(g.srtt)), g.preCwnd), g.preCwnd + g.preCwnd / 2);
      Row(k, wEst, target, AuditStep(g.preCwnd, target))
  }

  /** (target - cwnd) / cwnd of a segment further. */
  function AuditStep(cwnd: nat, target: int): int
    requires cwnd > 0
  { cwnd + (target - cwnd) * Q_ONE / cwnd }

  // ------------------------------------------------------------------ piece by piece

  /** Starting an epoch gives the audit's K: the radicand never saturates. */
  lemma EpochK(m: Model, mss: u32, limit: u32, now: u64)
    requires WindowOk(m, mss, limit)
    ensures var e := EpochStarted(m, now);
      e.k == if e.wMax > m.cwnd then FloorCbrt((e.wMax - m.cwnd) * SCALE) else 0
  {
    hide Q16, BytesOf, Cube, FloorCbrt;
  }

  lemma WEstAgrees(e: Model, g: Log, bytes: u32, top: u64)
    requires bytes > 0
    requires e.wEst == if g.preActive then g.preWEst else g.preCwnd
    requires e.wEst < e.cwndPrior <==> e.wEst < g.prePrior
    ensures GrownWEst(e, g.acked, bytes, top) == Min(WEstAt(g, bytes), top)
  {
    hide RatioQ16;
  }

  /** A smaller window in bytes grows W_est at least as much. */
  lemma WEstAntitone(g: Log, less: u32, more: u32)
    requires 0 < less <= more
    ensures WEstAt(g, less) >= WEstAt(g, more)
  {
    var x := g.acked * Q_ONE;
    var q := x / more;
    assert x == q * more + x % more;
    DivFacts(x, more);
    MulMono(less, more, q);
    assert less * q == q * less && more * q == q * more;
    DivMono(q * less + 0, x, less);
    DivOfMultiplePlus(q, 0, less);
    assert RatioQ16(g.acked, less) >= RatioQ16(g.acked, more);
    hide RatioQ16;
  }

  lemma TimesAgree(elapsed: u64, srtt: u64)
    ensures TimeQ10(elapsed) == AuditTime(elapsed)
    ensures SatAdd(TimeQ10(elapsed), NonzeroTimeQ10(srtt)) == AuditTime(elapsed) + AuditRtt(srtt)
  {
    TimeExact(elapsed);
    TimeExact(srtt);
    hide TimeQ10;
  }

  /** Clamping the saturating curve below the limit is clamping the exact one. */
  lemma TargetAgrees(wMax: u64, k: u64, t: u64, cwnd: u64, upper: u64)
    requires wMax <= Q16_BOUND && Cube(k) <= U64_MAX && cwnd <= upper <= Q16_BOUND
    ensures Min(Max(Window(wMax, k, t), cwnd), upper) == Min(Max(AuditWindow(wMax, k, t), cwnd), upper)
  {
    WindowExact(wMax, k, t, upper);
    hide Window, AuditWindow;
  }

  /** The code's comparison and clamped target, on the exact curve. */
  lemma CurveAgrees(e: Model, t: Transport, elapsed: u64, srtt: u64, wEst: u64)
    requires WindowOk(e, t.mss, t.limit) && wEst <= LimitQ(t)
    ensures var upper, reach := Min(e.cwnd + e.cwnd / 2, LimitQ(t)), SatAdd(TimeQ10(elapsed), NonzeroTimeQ10(srtt));
      && (Window(e.wMax, e.k, TimeQ10(elapsed)) < wEst <==> AuditWindow(e.wMax, e.k, AuditTime(elapsed)) < wEst)
      && Min(Max(Window(e.wMax, e.k, reach), e.cwnd), upper)
         == Min(Max(AuditWindow(e.wMax, e.k, AuditTime(elapsed) + AuditRtt(srtt)), e.cwnd), upper)
  {
    hide WindowOk, Cube, Window, AuditWindow, TimeQ10, AuditTime, AuditRtt, NonzeroTimeQ10, LimitQ, TopQ;
    TimesAgree(elapsed, srtt);
    CurveFacts(e, t);
    WindowExact(e.wMax, e.k, TimeQ10(elapsed), wEst);
    TargetAgrees(e.wMax, e.k, AuditTime(elapsed) + AuditRtt(srtt), e.cwnd, Min(e.cwnd + e.cwnd / 2, LimitQ(t)));
  }

  /** What both sides start from when they grow W_est to `wEst`. */
  predicate SameStart(e: Model, t: Transport, g: Log, wEst: u64)
  {
    && e.epochStart == g.epochStart <= g.now && g.preCwnd == e.cwnd > 0 && g.wMax == e.wMax
    && wEst == GrownWEst(e, g.acked, BytesOf(e.cwnd, t.mss, t.limit), LimitQ(t))
  }

  predicate AuditReno(g: Log, k: nat, wEst: nat)
    requires g.epochStart <= g.now
  { AuditWindow(g.wMax, k, AuditTime(g.now - g.epochStart)) < wEst }

  /** Reno's branch: no target, no step. */
  lemma RenoAgrees(e: Model, t: Transport, g: Log, wEst: u64)
    requires WindowOk(e, t.mss, t.limit) && SameStart(e, t, g, wEst) && AuditReno(g, e.k, wEst)
    ensures var a, row := Avoided(e, t, g.acked, g.now, g.srtt), AuditBranch(g, e.k, wEst);
      a.wEst == a.lastTarget == row.target == wEst <= LimitQ(t) && a.cwnd == row.cwnd == Max(e.cwnd, wEst) <= LimitQ(t)
  {
    hide WindowOk, BytesOf, Window, AuditWindow, TimeQ10, GrownWEst, Stepped, AuditTime, AuditRtt, NonzeroTimeQ10,
      Avoided, LimitQ, TopQ, SatAdd, AuditStep;
    CurveFacts(e, t);
    AvoidedIs(e, t, g.acked, g.now, g.now - e.epochStart, g.srtt, wEst);
    CurveAgrees(e, t, g.now - e.epochStart, g.srtt, wEst);
  }

  /** The cubic branch's exact target. */
  function CubicTarget(g: Log, k: nat): int
    requires g.epochStart <= g.now
  {
    var reach := AuditWindow(g.wMax, k, AuditTime(g.now - g.epochStart) + AuditRtt(g.srtt));
    Min(Max(reach, g.preCwnd), g.preCwnd + g.preCwnd / 2)
  }

  lemma CubicRow(g: Log, k: nat, wEst: nat)
    requires g.epochStart <= g.now && g.preCwnd > 0 && !AuditReno(g, k, wEst)
    ensures g.preCwnd <= CubicTarget(g, k) <= g.preCwnd + g.preCwnd / 2
    ensures AuditBranch(g, k, wEst) == Row(k, wEst, CubicTarget(g, k), AuditStep(g.preCwnd, CubicTarget(g, k)))
  {
    hide AuditWindow, AuditTime, AuditRtt, AuditStep;
  }

  /** The cubic branch: the clamped target, and the step towards it. */
  lemma CubicAgrees(e: Model, t: Transport, g: Log, wEst: u64)
    requires WindowOk(e, t.mss, t.limit) && SameStart(e, t, g, wEst) && !AuditReno(g, e.k, wEst)
    ensures var a, top := Avoided(e, t, g.acked, g.now, g.srtt), LimitQ(t);
      && a.wEst == wEst <= top && a.lastTarget == Min(CubicTarget(g, e.k), top)
      && a.cwnd == Stepped(e.cwnd, a.lastTarget)
  {
    hide WindowOk, BytesOf, Window, AuditWindow, TimeQ10, GrownWEst, Stepped, AuditTime, AuditRtt, NonzeroTimeQ10,
      Avoided, LimitQ, TopQ, SatAdd, AuditStep;
    CurveFacts(e, t);
    AvoidedIs(e, t, g.acked, g.now, g.now - e.epochStart, g.srtt, wEst);
    CurveAgrees(e, t, g.now - e.epochStart, g.srtt, wEst);
  }

  /** The step in an epoch, given W_est after its growth, with the limit as the
      only difference from the audit. */
  lemma BranchAgrees(e: Model, t: Transport, g: Log, wEst: u64)
    requires WindowOk(e, t.mss, t.limit) && SameStart(e, t, g, wEst)
    ensures var a, row, top := Avoided(e, t, g.acked, g.now, g.srtt), AuditBranch(g, e.k, wEst), LimitQ(t);
      && a.wEst == wEst <= top && a.lastTarget == Min(row.target, top) && row.cwnd >= g.preCwnd
      && (row.target <= top ==> a.cwnd == row.cwnd <= top)
  {
    hide WindowOk, Avoided, AuditBranch, Stepped, AuditStep, LimitQ, AuditReno, CubicTarget, GrownWEst;
    CurveFacts(e, t);
    if AuditReno(g, e.k, wEst) {
      RenoAgrees(e, t, g, wEst);
    } else {
      CubicAgrees(e, t, g, wEst);
      CubicRow(g, e.k, wEst);
      StepWithin(e.cwnd, CubicTarget(g, e.k), LimitQ(t));
    }
  }

  /** Stepping towards a target within bounds is the audit's division. */
  lemma StepWithin(cwnd: u64, exact: u64, top: u64)
    requires Q_ONE <= cwnd <= exact <= cwnd + cwnd / 2 && cwnd <= top <= Q16_BOUND
    ensures exact <= top ==> Stepped(cwnd, exact) == AuditStep(cwnd, exact) <= top
    ensures AuditStep(cwnd, exact) >= cwnd
  {
    hide Stepped;
    SteppedExact(cwnd, exact);
    ShortStep(cwnd, exact - cwnd);
    DivFacts((exact - cwnd) * Q_ONE, cwnd);
  }

  lemma AvoidedIs(e: Model, t: Transport, acked: u32, now: u64, elapsed: u64, srtt: u64, wEst: u64)
    requires e.cwnd <= Q16_BOUND && elapsed == now - e.epochStart
    requires wEst == GrownWEst(e, acked, BytesOf(e.cwnd, t.mss, t.limit), LimitQ(t))
    ensures var upper := Min(e.cwnd + e.cwnd / 2, LimitQ(t));
      var target := Min(Max(Window(e.wMax, e.k, SatAdd(TimeQ10(elapsed), NonzeroTimeQ10(srtt))), e.cwnd), upper);
      && wEst <= LimitQ(t)
      && Avoided(e, t, acked, now, srtt) ==
         if Window(e.wMax, e.k, TimeQ10(elapsed)) < wEst
         then e.(wEst := wEst, cwnd := Max(e.cwnd, wEst), lastTarget := wEst)
         else e.(wEst := wEst, cwnd := Stepped(e.cwnd, target), lastTarget := target)
  {
    hide BytesOf, Window, TimeQ10, GrownWEst, Stepped, NonzeroTimeQ10, LimitQ;
    assert Sub64(now, e.epochStart) == elapsed;
    assert SatAdd(e.cwnd, e.cwnd / 2) == e.cwnd + e.cwnd / 2;
  }

  lemma CurveFacts(e: Model, t: Transport)
    requires WindowOk(e, t.mss, t.limit)
    ensures e.wMax <= LimitQ(t) <= Q16_BOUND && Cube(e.k) <= U64_MAX
        && Q_ONE <= e.cwnd <= LimitQ(t) == TopQ(t.mss, t.limit)
  {
    hide Q16, BytesOf, Cube;
    FloorFacts(e, t.mss, t.limit);
  }

  /** A window of at least one segment never steps past its target. */
  lemma ShortStep(cwnd: nat, d: nat)
    requires cwnd >= Q_ONE
    ensures d * Q_ONE / cwnd <= d
  {
    MulMono(Q_ONE, cwnd, d);
    DivMono(d * Q_ONE, d * cwnd + 0, cwnd);
    DivOfMultiplePlus(d, 0, cwnd);
  }

  lemma BytesPositive(m: Model, t: Transport)
    requires WindowOk(m, t.mss, t.limit)
    ensures Bytes(m.cwnd, t.mss, t.limit) > 0
  {
    hide Q16, BytesOf, Cube;
    FloorFacts(m, t.mss, t.limit);
    BytesMono(Q_ONE, m.cwnd, t.mss, t.limit);
    BytesExact(Q_ONE, t.mss, t.limit);
    DivOfMultiplePlus(t.mss, 0, Q_ONE);
  }

  // ----------------------------------------------------------------------- the refinement

  /** What the trace logs about an ACK taken in state m that left state m'. */
  function Logged(m: Model, m': Model, t: Transport, ack: Ack): Log
  {
    Log(ack.acked, Visible(m, t.mss, t.limit), ack.srtt, ack.time, m.epochActive, m'.epochStart,
        m.cwnd, m.wEst, m.cwndPrior, m.k, m'.wMax)
  }

  /** The state in which the ACK grows the window starts from the audit's values. */
  lemma EpochAgrees(m: Model, t: Transport, now: u64, g: Log)
    requires WindowOk(m, t.mss, t.limit) && m.cwnd >= m.ssthresh
    requires g.preActive == m.epochActive && g.preCwnd == m.cwnd && g.preWEst == m.wEst
    requires g.prePrior == m.cwndPrior && g.preK == m.k && g.wMax == Reading(m, now).wMax
    ensures var e := Reading(m, now);
      && WindowOk(e, t.mss, t.limit) && e.cwnd == m.cwnd && e.minCwnd == m.minCwnd && e.k == AuditK(g)
      && e.wEst == (if g.preActive then g.preWEst else g.preCwnd)
      && (e.wEst < e.cwndPrior <==> e.wEst < g.prePrior)
  {
    hide WindowOk, EpochStarted, FloorCbrt, Resumed;
    ResumedFacts(m, now);
    var base := Base(m, now);
    ClockOnly(m, base, t.mss, t.limit);
    if !base.epochActive {
      EpochLoose(base, t.mss, t.limit, now);
      EpochMin(base, now);
      EpochK(base, t.mss, t.limit, now);
      EpochPrior(base, now);
    }
  }

  lemma EpochPrior(m: Model, now: u64)
    ensures var e := EpochStarted(m, now); e.wEst == m.cwnd && (e.wEst < e.cwndPrior <==> m.cwnd < m.cwndPrior)
  {
    hide FloorCbrt, SatMul;
  }

  /** The exact condition for code and audit to agree, on values known before the
      ACK: the limit must not bind on W_est or the target, and W_est must not depend
      on the byte by which the stored window may undercut the published one. */
  predicate Agreeing(m: Model, t: Transport, g: Log, row: Row)
    requires Bytes(m.cwnd, t.mss, t.limit) > 0
  {
    var top := TopQ(t.mss, t.limit);
    && row.wEst <= top && row.target <= top
    && (WEstAt(g, Bytes(m.cwnd, t.mss, t.limit)) == row.wEst || row.wEst == top)
  }

  /** One accepted congestion-avoidance ACK gives exactly the audit's K, W_est, target
      and window if and only if `Agreeing` holds; no saturation of the code is ever
      visible. While the stored window is at least the floor in bytes, that is
      exactly when the audit's W_est and target stay within the window limit. */
  lemma StepRefinesAudit(m: Model, h: Hystart, t: Transport, ack: Ack, marks: seq<Mark>)
    requires WindowOk(m, t.mss, t.limit) && Joint(m, h) && ClockOk(m, marks)
    requires m.cwnd >= m.ssthresh && !ack.appLimited && AckStep(m, h, t, ack).Accepted?
    ensures var r, top := AckStep(m, h, t, ack).m, TopQ(t.mss, t.limit);
      var g := Logged(m, r, t, ack);
      && g.preCwndBytes > 0 && g.preCwnd > 0 && g.epochStart <= g.now && Bytes(m.cwnd, t.mss, t.limit) > 0
      && g == Logged(m, Reading(m, ack.time), t, ack)
      && var row := AuditRow(g);
         && r.k == row.k && row.wEst == AuditWEst(g) && r.wEst == Min(WEstAt(g, Bytes(m.cwnd, t.mss, t.limit)), top)
         && (Row(r.k, r.wEst, r.lastTarget, r.cwnd) == row <==> Agreeing(m, t, g, row))
         && (Bytes(m.cwnd, t.mss, t.limit) >= Floor(m, t.mss, t.limit) ==>
               (Agreeing(m, t, g, row) <==> row.wEst <= top && row.target <= top))
  {
    hide WindowOk, Lifecycle, HystartAck, SlowStartCredit, Published, PolicyOf, Avoided, EpochStarted, SlowStarted,
      AckStep,
      ClockOk, ActiveTime, Reading, GrownWEst, AuditK, WEstAt, AuditBranch, Visible, Floor, FloorQ, TopQ, LimitQ, Bytes;
    AckShape(m, h, t, ack);
    var now, e := ack.time, Reading(m, ack.time);
    ReadingIs(m, now);
    ReadingExact(m, marks, now);
    var a := Avoided(e, t, ack.acked, now, ack.srtt);
    var r := AckStep(m, h, t, ack).m;
    GrowthFrame(e, t, ack.acked, now, ack.srtt);
    PublishFacts(a, t);
    BytesPositive(m, t);
    var g := Logged(m, r, t, ack);
    VisibleAtLeast(m, t);
    EpochAgrees(m, t, now, g);
    CurveFacts(m, t);
    RowAgrees(m, e, t, g, r);
    RowShape(g, AuditK(g), AuditWEst(g));
  }

  /** The comparison itself, once the state in which the window grows is known. */
  lemma RowAgrees(m: Model, e: Model, t: Transport, g: Log, r: Model)
    requires WindowOk(m, t.mss, t.limit) && WindowOk(e, t.mss, t.limit) && e.epochActive
    requires e.cwnd == m.cwnd == g.preCwnd && e.minCwnd == m.minCwnd && e.k == AuditK(g) && e.cwnd > 0
    requires g.preCwndBytes == Visible(m, t.mss, t.limit) > 0 && Bytes(m.cwnd, t.mss, t.limit) > 0
    requires e.epochStart == g.epochStart <= g.now && e.wMax == g.wMax
    requires e.wEst == (if g.preActive then g.preWEst else g.preCwnd) && (e.wEst < e.cwndPrior <==> e.wEst < g.prePrior)
    requires r == Published(Avoided(e, t, g.acked, g.now, g.srtt), t)
    ensures var row, top := AuditRow(g), TopQ(t.mss, t.limit);
      && row.wEst == AuditWEst(g) && r.wEst == Min(WEstAt(g, Bytes(m.cwnd, t.mss, t.limit)), top)
      && (Row(e.k, r.wEst, r.lastTarget, r.cwnd) == row <==> Agreeing(m, t, g, row))
      && (Bytes(m.cwnd, t.mss, t.limit) >= Floor(m, t.mss, t.limit) ==>
            (Agreeing(m, t, g, row) <==> row.wEst <= top && row.target <= top))
  {
    hide WindowOk, Published, Avoided, GrownWEst, AuditK, WEstAt, AuditBranch, Visible, Floor, FloorQ, TopQ, LimitQ,
      BytesOf;
    var a := Avoided(e, t, g.acked, g.now, g.srtt);
    var bytes := Bytes(m.cwnd, t.mss, t.limit);
    VisibleAtLeast(m, t);
    WEstAgrees(e, g, bytes, LimitQ(t));
    WEstAntitone(g, bytes, g.preCwndBytes);
    var wEst := GrownWEst(e, g.acked, bytes, LimitQ(t));
    CurveFacts(m, t);
    BranchAgrees(e, t, g, wEst);
    GrowthFrame(e, t, g.acked, g.now, g.srtt);
    PublishFacts(a, t);
    AvoidedLoose(e, t, g.acked, g.now, g.srtt);
    RowShape(g, e.k, wEst);
    RowShape(g, e.k, AuditWEst(g));
    PublishedWindow(e, a, t);
  }

  /** Publication only applies the limit to a window that has grown. */
  lemma PublishedWindow(e: Model, a: Model, t: Transport)
    requires WindowOk(e, t.mss, t.limit) && a.minCwnd == e.minCwnd && a.cwnd >= e.cwnd
    ensures Published(a, t).cwnd == Min(a.cwnd, LimitQ(t))
  {
    hide Q16, BytesOf, Cube, Published, Floor;
    WindowLoose(e, t.mss, t.limit);
    FloorFacts(e, t.mss, t.limit);
    FloorIsMin(e, t);
    FixedFacts(t.mss, t.limit);
    PublishedStored(a, t);
  }

  lemma RowShape(g: Log, k: nat, wEst: nat)
    requires g.preCwnd > 0 && g.epochStart <= g.now
    ensures AuditBranch(g, k, wEst).k == k && AuditBranch(g, k, wEst).wEst == wEst
  {
    hide AuditWindow, AuditTime, AuditRtt, AuditStep;
  }

  lemma ReadingIs(m: Model, now: u64)
    ensures Reading(m, now) == InEpoch(Base(m, now), now)
  {
  }

  lemma VisibleAtLeast(m: Model, t: Transport)
    ensures Visible(m, t.mss, t.limit) >= Bytes(m.cwnd, t.mss, t.limit)
    ensures Bytes(m.cwnd, t.mss, t.limit) >= Floor(m, t.mss, t.limit) ==>
      Visible(m, t.mss, t.limit) == Bytes(m.cwnd, t.mss, t.limit)
  {
    hide BytesOf;
  }

  /** ... and so for the next congestion-avoidance ACK of every run. */
  lemma RunRefinesAudit(t: Transport, initial: u32, ssthresh: u32, minCwnd: u32, inputs: seq<Input>, ack: Ack,
      inflight: u32)
    requires ValidInit(t, initial, ssthresh, minCwnd) && t.mss <= Q_ONE && SameTransport(inputs, t.mss, t.limit)
    requires var (m, h) := Run(Initial(t, initial, ssthresh, minCwnd), ARMED, inputs);
      m.cwnd >= m.ssthresh && !ack.appLimited && AckStep(m, h, t.(inflight := inflight), ack).Accepted?
    ensures var (m, h) := Run(Initial(t, initial, ssthresh, minCwnd), ARMED, inputs);
      var r := AckStep(m, h, t.(inflight := inflight), ack).m;
      var g := Logged(m, r, t, ack);
      && g.preCwndBytes > 0 && g.preCwnd > 0 && g.epochStart <= g.now && Bytes(m.cwnd, t.mss, t.limit) > 0
      && g == Logged(m, Reading(m, ack.time), t, ack)
      && var row := AuditRow(g);
         (Row(r.k, r.wEst, r.lastTarget, r.cwnd) == row <==> Agreeing(m, t, g, row))
  {
    hide WindowOk, Joint, ClockOk, AckStep, AuditRow, Initial, BytesOf, Floor, Visible, TopQ, WEstAt, Reading;
    var m0 := Initial(t, initial, ssthresh, minCwnd);
    var (m, h) := Run(m0, ARMED, inputs);
    WindowOverRuns(t, initial, ssthresh, minCwnd, inputs);
    ClockOverRuns(t, initial, ssthresh, minCwnd, inputs);
    StepRefinesAudit(m, h, t.(inflight := inflight), ack, Marks(m0, ARMED, inputs));
  }
}
