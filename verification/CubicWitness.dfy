/** Runs from a fresh controller that break the plain promises: a pending HyStart++
    exit, CSS past its fifth round, a shrinking window and a W_est that differs from
    the audit's. The exact conditions are in `CubicLaws` and `CubicAudit`. */
module CubicWitness {
  import opened Words
  import opened CubicMath
  import opened CubicModel
  import opened CubicRuns
  import opened CubicLaws
  import opened CubicClock
  import opened CubicAudit

  // ----------------------------------------------------- a run that drives HyStart++ alone

  /** An ACK of no bytes at MSS 1000 and limit 100000: the model rejects it, but the
      observer has seen it. */
  function Probe(delivered: u64, inflight: u32, rtt: u64): Input
  { Input(1000, 100000, AckEvent(Ack(0, 1, 0, false, rtt != 0, rtt, delivered), inflight)) }

  /** One round at 10 ms, eight samples at 100 ms, then a round with every ACK. */
  function Script(k: nat): Input
  {
    if k == 0 then Probe(1000, 0, 10_000_000)
    else if k < 9 then Probe(1000, 1000, 100_000_000)
    else Probe(2000, 0, 0)
  }

  function Scripted(n: nat): (s: seq<Input>)
    ensures |s| == n && forall k :: 0 <= k < n ==> s[k] == Script(k)
  { seq(n, k requires 0 <= k < n => Script(k)) }

  /** The observer after n of them. */
  function Observer(n: nat): Hystart
  {
    if n == 0 then ARMED
    else if n == 1 then ARMED.(currentMin := 10_000_000, nextRound := 1000, samples := 1)
    else if n < 9 then ARMED.(lastMin := 10_000_000, currentMin := 100_000_000, nextRound := 2000, samples := n - 1)
    else if n == 9 then
      ARMED.(lastMin := 10_000_000, currentMin := 100_000_000, baseline := 100_000_000, nextRound := 2000,
          samples := 8, css := true)
    else
      ARMED.(lastMin := if n == 10 then 100_000_000 else U64_MAX, baseline := 100_000_000, nextRound := 2000,
             cssRounds := n - 9, css := true, ackCss := true, exitPending := n >= 14)
  }

  predicate SlowStarting(m: Model) { m.mss == 1000 && m.cwnd < m.ssthresh }

  lemma ObserverStep(m: Model, n: nat)
    requires SlowStarting(m) && n < 15
    ensures var e := Script(n).event;
      HystartAck(m, Observer(n), Transport(1000, e.inflight, 100000), e.ack) == Observer(n + 1)
  {
    assert DelayThreshold(10_000_000) == MIN_RTT_THRESH;
  }

  /** The script leaves the model alone and the observer where `Observer` says. */
  lemma {:induction false} ScriptRuns(m: Model, n: nat)
    requires SlowStarting(m) && n <= 15
    ensures Run(m, ARMED, Scripted(n)) == (m, Observer(n))
    ensures n > 0 ==> Next(m, Observer(n - 1), Script(n - 1)).Rejected?
  {
    hide HystartAck, Observer, Script;
    if n == 0 {
      NothingObserved();
    } else {
      ScriptRuns(m, n - 1);
      assert Scripted(n)[..n - 1] == Scripted(n - 1);
      ObserverStep(m, n - 1);
      ProbeRejected(m, Observer(n - 1), Script(n - 1));
      ScriptShape(n - 1);
    }
  }

  lemma NothingObserved()
    ensures Observer(0) == ARMED
  {
  }

  lemma ScriptShape(k: nat)
    ensures Script(k).mss == 1000 && Script(k).limit == 100000 && Script(k).event.AckEvent?
    ensures Script(k).event.ack.acked == 0 && Script(k).event.ack.time == 1
  {
  }

  lemma ProbeRejected(m: Model, h: Hystart, i: Input)
    ensures i.event.AckEvent? && i.mss == 1000 && i.event.ack.acked == 0 && i.event.ack.time == 1 && SlowStarting(m) ==>
      Next(m, h, i) == Rejected(m, HystartAck(m, h, Transport(i.mss, i.event.inflight, i.limit), i.event.ack))
  {
    hide HystartAck, Published, Avoided, EpochStarted, SlowStarted;
  }

  // -------------------------------------------------------------------- the fresh controller

  const T0 := Transport(1000, 0, 100000)

  function Fresh(): Model { Initial(T0, 10002, 100000, 1000) }

  lemma FreshFacts()
    ensures ValidInit(T0, 10002, 100000, 1000) && SlowStarting(Fresh()) && WindowOk(Fresh(), 1000, 100000)
    ensures Fresh().cwnd == 655491 && Fresh().ssthresh == 6553600 && Fresh().minCwnd == 1000 && Fresh().ackEvents == 0
    ensures Bytes(655491, 1000, 100000) == 10001 && Visible(Fresh(), 1000, 100000) == 10001
        && Floor(Fresh(), 1000, 100000) == 1000
  {
    BytesExact(655491, 1000, 100000);
    BytesExact(6553600, 1000, 100000);
    hide BytesOf;
    assert Q16(10002, 1000) == 655491 && Q16(100000, 1000) == 6553600 && Q16(1000, 1000) == 65536;
    InitialOk(T0, 10002, 100000, 1000);
  }

  // --------------------------------------------------------------------------- the witnesses

  /** After the fourteenth ACK of the script the exit raised by the fifth CSS round is
      pending: the model rejected that ACK. */
  lemma PendingWitness()
    ensures var (m, h) := Run(Fresh(), ARMED, Scripted(14)); h.exitPending && h.exits == 0 && h.enabled
  {
    hide Run, Scripted;
    FreshFacts();
    ScriptRuns(Fresh(), 14);
  }

  /** After the fifteenth CSS has completed six rounds and is still on. */
  lemma OverrunWitness()
    ensures var h := Run(Fresh(), ARMED, Scripted(15)).1; h.css && h.cssRounds == 6
  {
    hide Run, Scripted;
    FreshFacts();
    ScriptRuns(Fresh(), 15);
  }

  /** Lowering the limit to 5000 bytes on the ACK that completes the fifth round: it is
      accepted, in congestion avoidance, and the exit stays pending. */
  lemma LimitWitness()
    ensures var inputs := Scripted(13);
      var (m, h) := Run(Fresh(), ARMED, inputs);
      var r := Step(m, h, 1000, 5000, AckEvent(Ack(1000, 1, 1_000_000, false, false, 0, 6000), 0));
      r.Accepted? && r.h.exitPending && r.h.exits == 0 && r.h.css
  {
    hide Run, Scripted, AckStep;
    FreshFacts();
    var m, h, t := Fresh(), Observer(13), Transport(1000, 0, 5000);
    ScriptRuns(m, 13);
    var ack := Ack(1000, 1, 1_000_000, false, false, 0, 6000);
    LimitMeets(m, t);
    assert FifthRound(m, h, t, ack) && !Overran(h);
    PendingExit(m, h, t, ack);
    LifecycleStep(m, h, Input(1000, 5000, AckEvent(ack, 0)));
  }

  lemma LimitMeets(m: Model, t: Transport)
    requires m.mss == 1000 && m.cwnd == 655491 && m.ssthresh == 6553600 && m.minCwnd == 1000
        && t == Transport(1000, 0, 5000)
    ensures Adjusted(m, t).cwnd == Adjusted(m, t).ssthresh
  {
    assert Q16(5000, 1000) == 327680 && Q16(1000, 1000) == 65536;
  }

  /** A one-byte ACK of a growing transfer: one at 10 ms, then eight at 100 ms. */
  function Byte(k: nat): Input
    requires k < 9
  {
    var rtt := if k == 0 then 10_000_000 else 100_000_000;
    Input(1000, 100000, AckEvent(Ack(1, k + 1, 0, false, true, rtt, 1000 + k), if k == 0 then 0 else 1000))
  }

  function Bytewise(n: nat): (s: seq<Input>)
    requires n <= 9
    ensures |s| == n && forall k :: 0 <= k < n ==> s[k] == Byte(k)
  { seq(n, k requires 0 <= k < n => Byte(k)) }

  /** The observer and the model after n of them: at this window a byte of growth is
      lost to Q16 again. */
  function ByteObserver(n: nat): Hystart
    requires n <= 9
  { if n <= 1 then Observer(n) else Observer(n).(nextRound := 2001) }

  function Acknowledged(n: u32): Model { Fresh().(ackEvents := n, lastAck := n) }

  lemma ByteObserved(m: Model, n: nat)
    requires SlowStarting(m) && n < 9
    ensures var e := Byte(n).event;
      HystartAck(m, ByteObserver(n), Transport(1000, e.inflight, 100000), e.ack) == ByteObserver(n + 1)
  {
    assert DelayThreshold(10_000_000) == MIN_RTT_THRESH;
  }

  lemma ByteGrows(m: Model, h1: Hystart, t: Transport)
    requires m.cwnd == 655491 && m.ssthresh == 6553600 && m.minCwnd == 1000 && m.mss == 1000
    requires t.mss == 1000 && t.limit == 100000 && !h1.ackCss && !h1.exitPending
    ensures var (grown, h2) := Finished(SlowStarted(m, h1, t, 1), h1); Published(grown, t) == m && h2 == h1
  {
    BytesExact(655491, 1000, 100000);
    BytesExact(6553600, 1000, 100000);
    hide BytesOf;
    assert Q16(10002, 1000) == 655491 && Q16(100000, 1000) == 6553600 && Q16(1000, 1000) == 65536;
  }

  /** One of them, from the state the others have left. */
  lemma ByteStep(n: nat)
    requires n < 9
    ensures var r := Next(Acknowledged(n), ByteObserver(n), Byte(n));
      r.m == Acknowledged(n + 1) && r.h == ByteObserver(n + 1)
  {
    hide HystartAck, AckStep, Published, Initial, WindowOk, SlowStarted, Finished, PolicyOf;
    FreshFacts();
    FreshClock();
    var m, h, e := Acknowledged(n), ByteObserver(n), Byte(n).event;
    var t := Transport(1000, e.inflight, 100000);
    ClockOnly(Fresh(), m, 1000, 100000);
    ByteObserved(m, n);
    AckShape(m, h, t, e.ack);
    ByteGrows(Acknowledged(n + 1), ByteObserver(n + 1), t);
  }

  lemma {:induction false} BytewiseRuns(n: nat)
    requires n <= 9
    ensures Run(Fresh(), ARMED, Bytewise(n)) == (Acknowledged(n), ByteObserver(n))
    ensures WindowOk(Acknowledged(n), 1000, 100000) && SlowStarting(Acknowledged(n))
  {
    hide Next, Initial, WindowOk, Byte, ByteObserver;
    FreshFacts();
    FreshClock();
    ClockOnly(Fresh(), Acknowledged(n), 1000, 100000);
    if n == 0 {
      NothingObserved();
      BytesNotSeen();
    } else {
      BytewiseRuns(n - 1);
      assert Bytewise(n)[..n - 1] == Bytewise(n - 1);
      ByteStep(n - 1);
    }
  }

  lemma BytesNotSeen()
    ensures ByteObserver(0) == ARMED
  {
  }

  lemma FreshClock()
    ensures Fresh().lastAck == 0 && Fresh().ackEvents == 0 && !Fresh().paused
  {
    hide Q16, BytesOf;
  }

  /** Nine one-byte ACKs leave a fresh controller publishing 10001 bytes and put it
      into CSS; a tenth takes its window to 10000. */
  lemma ShrinkWitness()
    ensures var (m, h) := Run(Fresh(), ARMED, Bytewise(9));
      var r := Step(m, h, 1000, 100000, AckEvent(Ack(1, 10, 0, false, false, 0, 1009), 1000));
      Visible(m, 1000, 100000) == 10001 && r.Accepted? && r.policy.cwnd == 10000
  {
    hide Run, Bytewise, AckStep, BytesOf, WindowOk, Initial;
    FreshFacts();
    BytewiseRuns(9);
    var m, h := Acknowledged(9), ByteObserver(9);
    var t, ack := Transport(1000, 1000, 100000), Ack(1, 10, 0, false, false, 0, 1009);
    AckShape(m, h, t, ack);
    ShrinkExact(m, h, t, ack);
  }

  /** A fresh controller whose window is its own minimum of 10001 bytes stores 10000
      of them: the first ACK grows W_est by 6553 where the audit adds 6552, far below
      the limit. */
  lemma AuditWitness()
    ensures var t := Transport(1000, 0, 100000);
      var m, ack := Initial(t, 10001, 2000, 10001), Ack(1000, 1, 1_000_000, false, false, 0, 1000);
      var r := AckStep(m, ARMED, t, ack);
      var g := Logged(m, r.m, t, ack);
      && ValidInit(t, 10001, 2000, 10001) && r.Accepted?
      && g.preCwndBytes > 0 && AuditWEst(g) == 661977 && r.m.wEst == 661978 < TopQ(1000, 100000)
  {
    hide AckStep, BytesOf, WindowOk, ClockOk, AuditRow, Published;
    var t := Transport(1000, 0, 100000);
    var m, ack := Initial(t, 10001, 2000, 10001), Ack(1000, 1, 1_000_000, false, false, 0, 1000);
    MinimumFacts(t, m);
    InitialOk(t, 10001, 2000, 10001);
    InitialClock(t, 10001, 2000, 10001);
    AckShape(m, ARMED, t, ack);
    StepRefinesAudit(m, ARMED, t, ack, []);
  }

  lemma MinimumFacts(t: Transport, m: Model)
    requires t == Transport(1000, 0, 100000) && m == Initial(t, 10001, 2000, 10001)
    ensures m.cwnd == 655425 && m.ssthresh == 131072 && m.cwndPrior == 0 && !m.epochActive && m.ackEvents == 0
    ensures Bytes(655425, 1000, 100000) == 10000 && Visible(m, 1000, 100000) == 10001 && TopQ(1000, 100000) == 6553600
  {
    BytesExact(655425, 1000, 100000);
    BytesExact(131072, 1000, 100000);
    hide BytesOf;
    assert Q16(10001, 1000) == 655425 && Q16(2000, 1000) == 131072 && Q16(100000, 1000) == 6553600;
  }
}
