/** The pausable epoch clock: the time the cubic curve is evaluated at is the sum
    of the gaps between consecutive ACKs that were both not application-limited. */
module CubicClock {
  import opened Words
  import opened CubicMath
  import opened CubicModel
  import opened CubicRuns
  import opened CubicLaws

  /** An accepted ACK of the current epoch. */
  datatype Mark = Mark(time: u64, limited: bool)

  predicate Ordered(marks: seq<Mark>)
  { forall i, j :: 0 <= i < j < |marks| ==> marks[i].time <= marks[j].time }

  /** Time counted by the epoch: gaps whose two ends are both not limited. */
  ghost function ActiveTime(marks: seq<Mark>): int
  {
    if |marks| < 2 then 0
    else
      var n := |marks| - 1;
      ActiveTime(marks[..n])
      + if marks[n - 1].limited || marks[n].limited then 0 else marks[n].time - marks[n - 1].time
  }

  lemma {:induction false} ActiveTimeBounds(marks: seq<Mark>)
    requires Ordered(marks)
    ensures 0 <= ActiveTime(marks)
    ensures marks != [] ==> ActiveTime(marks) <= marks[|marks| - 1].time - marks[0].time
  {
    if |marks| >= 2 { ActiveTimeBounds(marks[..|marks| - 1]); }
  }

  lemma ActiveTimeSnoc(marks: seq<Mark>, x: Mark)
    requires marks != []
    ensures ActiveTime(marks + [x]) == ActiveTime(marks)
      + if marks[|marks| - 1].limited || x.limited then 0 else x.time - marks[|marks| - 1].time
  {
    assert (marks + [x])[..|marks|] == marks;
  }

  /** The epoch's history after one more accepted event. */
  function Marked(marks: seq<Mark>, before: Model, after: Model, e: Event): seq<Mark>
  {
    if !after.epochActive || !e.AckEvent? then []
    else if !before.epochActive then [Mark(e.ack.time, e.ack.appLimited)]
    else marks + [Mark(e.ack.time, e.ack.appLimited)]
  }

  /** The clock relation. While paused, time stands at the ACK before the pause. */
  ghost predicate ClockOk(m: Model, marks: seq<Mark>)
  {
    && Ordered(marks) && (m.epochActive <==> marks != [])
    && (m.epochActive ==>
          && m.ackEvents != 0 && marks[|marks| - 1] == Mark(m.lastAck, m.paused)
          && m.epochStart + ActiveTime(marks) == if m.paused then m.appSince else m.lastAck)
    && (m.paused ==> m.ackEvents != 0 && m.appSince <= m.lastAck)
  }

  // -------------------------------------------------------------------------- each event

  lemma PauseKeeps(m: Model, marks: seq<Mark>, now: u64)
    requires ClockOk(m, marks) && (m.ackEvents == 0 || m.lastAck <= now)
    ensures ClockOk(Acked(Paused(m, now), now), if m.epochActive then marks + [Mark(now, true)] else [])
  {
    if m.epochActive { ActiveTimeSnoc(marks, Mark(now, true)); }
    hide ActiveTime;
  }

  /** Resuming moves the epoch start past the pause, without ever saturating. */
  lemma ResumeKeeps(m: Model, marks: seq<Mark>, now: u64)
    requires ClockOk(m, marks) && (m.ackEvents == 0 || m.lastAck <= now)
    ensures ClockOk(Base(m, now), if m.epochActive then marks + [Mark(now, false)] else [])
  {
    ActiveTimeBounds(marks);
    if m.epochActive { ActiveTimeSnoc(marks, Mark(now, false)); }
    hide ActiveTime;
  }

  lemma StartKeeps(m: Model, now: u64)
    requires !m.epochActive && !m.paused && m.ackEvents != 0 && m.lastAck == now
    ensures ClockOk(EpochStarted(m, now), [Mark(now, false)])
  {
    hide FloorCbrt, SatMul;
  }

  lemma GrowthFrame(e: Model, t: Transport, acked: u32, now: u64, srtt: u64)
    ensures var a := Avoided(e, t, acked, now, srtt);
      a == e.(cwnd := a.cwnd, wEst := a.wEst, lastTarget := a.lastTarget)
  {
    hide Q16, BytesOf, Window, TimeQ10, GrownWEst, Stepped, Sub64, SatAdd;
  }

  ghost function Reading(m: Model, now: u64): Model { InEpoch(Base(m, now), now) }

  /** A congestion-avoidance ACK reads the clock exactly: the subtraction does not
      wrap and gives the counted time including this ACK. */
  lemma ReadingExact(m: Model, marks: seq<Mark>, now: u64)
    requires ClockOk(m, marks) && (m.ackEvents == 0 || m.lastAck <= now)
    ensures var e, marks' := Reading(m, now),
        (if m.epochActive then marks + [Mark(now, false)] else [Mark(now, false)]);
      && ClockOk(e, marks') && e.epochActive && e.epochStart <= now
      && Sub64(now, e.epochStart) == ActiveTime(marks')
  {
    hide EpochStarted, ClockOk;
    ResumeKeeps(m, marks, now);
    var base := Base(m, now);
    BaseFacts(m, now);
    if !m.epochActive { StartKeeps(base, now); EpochMin(base, now); StartFacts(base, now); }
    var marks' := if m.epochActive then marks + [Mark(now, false)] else [Mark(now, false)];
    ReadClock(Reading(m, now), marks', now);
  }

  lemma BaseFacts(m: Model, now: u64)
    ensures var b := Base(m, now); b.epochActive == m.epochActive && !b.paused && b.ackEvents != 0 && b.lastAck == now
  {
  }

  lemma StartFacts(m: Model, now: u64)
    ensures var e := EpochStarted(m, now); e.lastAck == m.lastAck && e.paused == m.paused
  {
    hide FloorCbrt, SatMul;
  }

  lemma ReadClock(e: Model, marks: seq<Mark>, now: u64)
    requires ClockOk(e, marks) && e.epochActive && !e.paused && e.lastAck == now
    ensures e.epochStart <= now && Sub64(now, e.epochStart) == ActiveTime(marks)
  {
    ActiveTimeBounds(marks);
    hide ActiveTime;
  }

  // ------------------------------------------------------------- any MSS and any limit

  /** No epoch runs in slow start. */
  predicate Avoiding(m: Model) { m.epochActive ==> m.cwnd >= m.ssthresh }

  predicate SameClock(m: Model, m': Model)
  {
    && m'.epochStart == m.epochStart && m'.lastAck == m.lastAck && m'.appSince == m.appSince
    && m'.paused == m.paused && m'.ackEvents == m.ackEvents && m'.epochActive == m.epochActive
  }

  lemma RescaledMono(p: u64, q: u64, oldMss: u32, newMss: u32)
    requires oldMss > 0 && p <= q
    ensures Rescaled(p, oldMss, newMss) <= Rescaled(q, oldMss, newMss)
  {
    hide MulOverflows;
    MulMono(p, q, oldMss);
    if newMss > 0 { DivMono(p * oldMss, q * oldMss, newMss); }
    if q > 0 && newMss > 0 { DivFacts(q * oldMss, newMss); }
  }

  /** Adapting to another MSS or limit keeps the order of window and threshold. */
  lemma AdjustedAvoids(m: Model, t: Transport)
    requires m.mss > 0 && Avoiding(m)
    ensures Avoiding(SyncedMss(m, t.mss)) && SameClock(m, SyncedMss(m, t.mss))
    ensures Avoiding(Adjusted(m, t)) && SameClock(m, Adjusted(m, t))
  {
    hide Rescaled, Q16;
    if m.cwnd >= m.ssthresh { RescaledMono(m.ssthresh, m.cwnd, m.mss, t.mss); }
  }

  lemma PublishedAvoids(m: Model, t: Transport)
    requires t.mss > 0 && Avoiding(m)
    ensures Avoiding(Published(m, t)) && SameClock(m, Published(m, t))
  {
    hide Q16, BytesOf, Published;
    PublishedStored(m, t);
    PublishFacts(m, t);
  }

  /** An accepted ACK at any transport: slow start, paused, congestion avoidance. */
  ghost function AnyOutcome(n: Model, h1: Hystart, t: Transport, credit: u32, ack: Ack): Result
  {
    if n.cwnd < n.ssthresh then
      var (grown, h2) := Finished(SlowStarted(Base(n, ack.time), h1, t, credit), h1);
      Publishing(grown, h2, t)
    else if ack.appLimited then
      var (held, h2) := Finished(Acked(Paused(n, ack.time), ack.time), h1);
      Publishing(held, h2, t)
    else Publishing(Avoided(Reading(n, ack.time), t, credit, ack.time, ack.srtt), h1, t)
  }

  lemma AnyShape(m: Model, h: Hystart, t: Transport, ack: Ack)
    ensures var r, h1 := AckStep(m, h, t, ack), HystartAck(m, h, t, ack);
      && (r.Accepted? ==>
            && m.mss > 0 && t.mss > 0 && !Backwards(m, ack)
            && r == AnyOutcome(Adjusted(m, t), h1, t, Credit(m, h1, t, ack), ack))
      && (r.Rejected? ==> r.m == m || (m.mss > 0 && (r.m == SyncedMss(m, t.mss) || r.m == Adjusted(m, t))))
  {
    hide HystartAck, SlowStartCredit, SlowStarted, Published, PolicyOf, Avoided, EpochStarted, Normalized, SyncedMss,
      Resumed, Paused, Finished;
    if m.mss > 0 {
      SyncedClock(m, t);
      PauseFrame(Adjusted(m, t), ack.time);
    }
  }

  lemma AvoidedGrows(e: Model, t: Transport, acked: u32, now: u64, srtt: u64)
    ensures Avoided(e, t, acked, now, srtt).cwnd >= e.cwnd
  {
    hide Q16, BytesOf, Window, TimeQ10, GrownWEst, Stepped, Sub64, SatAdd;
  }

  /** An ACK accepted in state n, adjusted to its transport, advances the clock. */
  lemma ClockAck(n: Model, h1: Hystart, t: Transport, credit: u32, ack: Ack, marks: seq<Mark>)
    requires Avoiding(n) && ClockOk(n, marks) && !Backwards(n, ack) && t.mss > 0
    ensures var r := AnyOutcome(n, h1, t, credit, ack).m;
      Avoiding(r) && ClockOk(r, Marked(marks, n, r, AckEvent(ack, t.inflight)))
  {
    hide Published, PolicyOf, Avoided, EpochStarted, SlowStarted, ClockOk, Resumed, Paused, Finished, Avoiding, Reading,
      SameClock;
    var now := ack.time;
    if n.cwnd < n.ssthresh {
      ResumeKeeps(n, marks, now);
      SlowClock(n, h1, t, credit, now);
      BaseFacts(n, now);
      var g := Finished(SlowStarted(Base(n, now), h1, t, credit), h1).0;
      PublishedAvoids(g, t);
      ClockSame(Base(n, now), Published(g, t), g, []);
    } else if ack.appLimited {
      var p := Acked(Paused(n, now), now);
      PauseKeeps(n, marks, now);
      HeldClock(n, p, h1, now, if n.epochActive then marks + [Mark(now, true)] else []);
      var g := Finished(p, h1).0;
      PublishedAvoids(g, t);
      ClockSame(g, Published(g, t), g, if g.epochActive then marks + [Mark(now, true)] else []);
    } else {
      ReadingExact(n, marks, now);
      var e := Reading(n, now);
      ReadingWindow(n, now);
      GrowthFrame(e, t, credit, now, ack.srtt);
      AvoidedGrows(e, t, credit, now, ack.srtt);
      var a := Avoided(e, t, credit, now, ack.srtt);
      GrownAvoids(e, a);
      PublishedAvoids(a, t);
      ClockSame(e, Published(a, t), a, if n.epochActive then marks + [Mark(now, false)] else [Mark(now, false)]);
    }
  }

  lemma ClockSame(m: Model, m': Model, mid: Model, marks: seq<Mark>)
    requires ClockOk(m, marks) && SameClock(m, mid) && SameClock(mid, m')
    ensures ClockOk(m', marks) && m'.epochActive == m.epochActive
  {
    hide ActiveTime;
  }

  /** Slow start happens outside epochs and stays there. */
  lemma SlowClock(n: Model, h: Hystart, t: Transport, credit: u32, now: u64)
    requires Avoiding(n) && n.cwnd < n.ssthresh
    ensures var g := Finished(SlowStarted(Base(n, now), h, t, credit), h).0;
      SameClock(Base(n, now), g) && !g.epochActive && !n.epochActive && Avoiding(g)
  {
    hide Q16, BytesOf;
  }

  /** A handover inside a pause ends the epoch. */
  lemma HeldClock(n: Model, p: Model, h: Hystart, now: u64, marks: seq<Mark>)
    requires n.cwnd >= n.ssthresh && p == Acked(Paused(n, now), now) && ClockOk(p, marks)
    ensures var g := Finished(p, h).0;
      && Avoiding(g) && (g.epochActive ==> n.epochActive) && SameClock(g, g)
      && ClockOk(g, if g.epochActive then marks else [])
  {
    hide ActiveTime;
  }

  lemma ReadingWindow(n: Model, now: u64)
    ensures Reading(n, now).cwnd == n.cwnd && Reading(n, now).ssthresh == n.ssthresh
  {
    hide FloorCbrt, SatMul;
  }

  lemma GrownAvoids(e: Model, a: Model)
    requires a == e.(cwnd := a.cwnd, wEst := a.wEst, lastTarget := a.lastTarget) && a.cwnd >= e.cwnd >= e.ssthresh
    ensures Avoiding(a) && SameClock(e, a)
  {
  }

  /** A congestion event stops the clock. */
  lemma Cleared(m: Model, t: Transport, floorSegments: u32)
    requires m.mss > 0
    ensures ClockOk(Reduced(m, t, floorSegments), []) && !Reduced(m, t, floorSegments).epochActive
    ensures ClockOk(TimedOut(m, t), []) && !TimedOut(m, t).epochActive
  {
    hide Q16, BytesOf, BetaFlight, Rescaled, EffectiveMin;
  }

  lemma StoppedClock(m: Model, t: Transport)
    requires ClockOk(m, []) && !m.epochActive && t.mss > 0
    ensures ClockOk(Published(m, t), []) && !Published(m, t).epochActive
  {
    hide Published, ActiveTime;
    PublishFacts(m, t);
  }

  /** Any event at any transport keeps the clock relation. */
  lemma ClockNext(m: Model, h: Hystart, i: Input, marks: seq<Mark>)
    requires Avoiding(m) && ClockOk(m, marks)
    ensures var r := Next(m, h, i);
      && Avoiding(r.m)
      && ClockOk(r.m, if r.Accepted? then Marked(marks, m, r.m, i.event) else marks)
  {
    hide AckStep, AnyOutcome, ClockOk, Published, PolicyOf, Reduced, TimedOut, HystartAck, SyncedMss, Adjusted, Credit,
      SameClock;
    var t := Transport(i.mss, i.event.inflight, i.limit);
    match i.event {
      case AckEvent(ack, _) =>
        AnyShape(m, h, t, ack);
        if m.mss > 0 {
          AdjustedAvoids(m, t);
          SelfClock(m);
          ClockSame(m, Adjusted(m, t), m, marks);
          ClockSame(m, SyncedMss(m, t.mss), m, marks);
          if AckStep(m, h, t, ack).Accepted? {
            var h1 := HystartAck(m, h, t, ack);
            ClockFields(m, Adjusted(m, t));
            ClockAck(Adjusted(m, t), h1, t, Credit(m, h1, t, ack), ack, marks);
          }
        }
      case _ =>
        if m.mss > 0 && t.mss > 0 {
          Cleared(m, t, 1);
          Cleared(m, t, 2);
          StoppedClock(Reduced(m, t, 1), t);
          StoppedClock(Reduced(m, t, 2), t);
          StoppedClock(TimedOut(m, t), t);
        }
    }
  }

  lemma SelfClock(m: Model)
    ensures SameClock(m, m)
  {
  }

  lemma ClockFields(m: Model, m': Model)
    requires SameClock(m, m')
    ensures m'.epochActive == m.epochActive && m'.ackEvents == m.ackEvents && m'.lastAck == m.lastAck
  {
  }

  // --------------------------------------------------------------------------- every run

  /** The accepted ACKs of the epoch a run ends in. */
  ghost function Marks(m: Model, h: Hystart, inputs: seq<Input>): seq<Mark>
  {
    if inputs == [] then []
    else
      var n := |inputs| - 1;
      var (m1, h1) := Run(m, h, inputs[..n]);
      var r, marks := Next(m1, h1, inputs[n]), Marks(m, h, inputs[..n]);
      if r.Accepted? then Marked(marks, m1, r.m, inputs[n].event) else marks
  }

  /** The clock relation holds after every run, whatever MSS and limit each event has. */
  lemma {:induction false} ClockOverRuns(t: Transport, initial: u32, ssthresh: u32, minCwnd: u32, inputs: seq<Input>)
    ensures var m0 := Initial(t, initial, ssthresh, minCwnd);
      && Avoiding(Run(m0, ARMED, inputs).0)
      && ClockOk(Run(m0, ARMED, inputs).0, Marks(m0, ARMED, inputs))
  {
    hide Next, Initial, ClockOk, Marked, Avoiding;
    var m0 := Initial(t, initial, ssthresh, minCwnd);
    if inputs == [] {
      InitialClock(t, initial, ssthresh, minCwnd);
    } else {
      var n := |inputs| - 1;
      ClockOverRuns(t, initial, ssthresh, minCwnd, inputs[..n]);
      var (m, h) := Run(m0, ARMED, inputs[..n]);
      ClockNext(m, h, inputs[n], Marks(m0, ARMED, inputs[..n]));
    }
  }

  lemma InitialClock(t: Transport, initial: u32, ssthresh: u32, minCwnd: u32)
    ensures ClockOk(Initial(t, initial, ssthresh, minCwnd), []) && Avoiding(Initial(t, initial, ssthresh, minCwnd))
  {
    hide Q16, BytesOf;
  }

  /** After any run, the next accepted congestion-avoidance ACK, at any transport,
      evaluates the cubic curve at the time counted by the epoch, which excludes every
      gap next to an application-limited ACK; the 64-bit subtraction never underflows. */
  lemma EpochClock(t: Transport, initial: u32, ssthresh: u32, minCwnd: u32, inputs: seq<Input>, i: Input)
    requires var (m, h) := Run(Initial(t, initial, ssthresh, minCwnd), ARMED, inputs);
      && i.event.AckEvent? && !i.event.ack.appLimited && Next(m, h, i).Accepted? && m.mss > 0
      && var n := Adjusted(m, Transport(i.mss, i.event.inflight, i.limit)); n.cwnd >= n.ssthresh
    ensures var m0, now := Initial(t, initial, ssthresh, minCwnd), i.event.ack.time;
      var e := Reading(Adjusted(Run(m0, ARMED, inputs).0, Transport(i.mss, i.event.inflight, i.limit)), now);
      && e.epochStart <= now
      && now - e.epochStart == Sub64(now, e.epochStart) == ActiveTime(Marks(m0, ARMED, inputs + [i]))
  {
    hide AckStep, Initial, ClockOk, Reading, AnyOutcome, ActiveTime, Adjusted, HystartAck, Credit, SameClock;
    var m0, ack := Initial(t, initial, ssthresh, minCwnd), i.event.ack;
    var (m, h) := Run(m0, ARMED, inputs);
    var marks := Marks(m0, ARMED, inputs);
    var u := Transport(i.mss, i.event.inflight, i.limit);
    ClockOverRuns(t, initial, ssthresh, minCwnd, inputs);
    AnyShape(m, h, u, ack);
    AdjustedAvoids(m, u);
    var n := Adjusted(m, u);
    SelfClock(m);
    ClockSame(m, n, m, marks);
    ClockFields(m, n);
    ReadingExact(n, marks, ack.time);
    assert (inputs + [i])[..|inputs|] == inputs;
    ActiveAfter(n, HystartAck(m, h, u, ack), u, Credit(m, HystartAck(m, h, u, ack), u, ack), ack);
  }

  lemma ActiveAfter(n: Model, h1: Hystart, t: Transport, credit: u32, ack: Ack)
    requires n.cwnd >= n.ssthresh && !ack.appLimited
    ensures AnyOutcome(n, h1, t, credit, ack).m.epochActive
  {
    hide Published, PolicyOf, Avoided, EpochStarted, Resumed;
    var e := Reading(n, ack.time);
    EpochMin(Base(n, ack.time), ack.time);
    GrowthFrame(e, t, credit, ack.time, ack.srtt);
    PublishFacts(Avoided(e, t, credit, ack.time, ack.srtt), t);
  }
}
