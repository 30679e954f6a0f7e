/** Proportional Rate Reduction (section 6.2 of RFC 9937) and the adapter glue
    that turns its grants into a spendable send credit. */
module Prr {
  import opened Words
  import opened Scaling

  datatype Prr = Prr(delivered: u64, out: u64, recoverFs: u32, ssthresh: u32, active: bool)
  datatype Ack = Ack(delivered: u32, inflight: u32, smss: u32, safe: bool)
  datatype Grant = Grant(sndcnt: u32, cwnd: u32)

  const IDLE := Prr(0, 0, 0, 0, false)

  predicate Ready(p: Prr) { p.active && p.recoverFs > 0 && p.ssthresh > 0 }

  /** ceil(prrDelivered * ssthresh / RecoverFS), the share of the delivered data that may be sent. */
  function RateShare(prrDelivered: nat, ssthresh: nat, recoverFs: nat): (share: nat)
    requires recoverFs > 0
  {
    MulNonNegative(prrDelivered, ssthresh);
    CeilDiv(prrDelivered * ssthresh, recoverFs)
  }

  /** The RFC's pseudo-code over unbounded integers; a negative value means "send nothing". */
  function RfcSndcnt(share: int, prrDelivered: nat, prrOut: nat, ssthresh: nat, ack: Ack): int
  {
    var sndcnt :=
      if ack.inflight > ssthresh then share - prrOut
      else
        Min(ssthresh - ack.inflight,
            Max(prrDelivered - prrOut, ack.delivered) + (if ack.safe then ack.smss else 0));
    if prrOut == 0 && sndcnt == 0 then ack.smss else sndcnt
  }

  /** State after an accepted ACK. */
  function Charged(p: Prr, ack: Ack): Prr
  {
    if ack.delivered == 0 then p else p.(delivered := SatAdd(p.delivered, ack.delivered))
  }

  /** What the ACK grants: the RFC value for the charged counters and a share
      saturated at 64 bits, clipped to a 32-bit count. */
  function Granted(p: Prr, ack: Ack): Grant
    requires Ready(p)
  {
    if ack.delivered == 0 then Grant(0, ack.inflight) else
    var q := Charged(p, ack);
    var share := Min(RateShare(q.delivered, q.ssthresh, q.recoverFs), U64_MAX);
    var sndcnt := Min(U32_MAX, Max(0, RfcSndcnt(share, q.delivered, q.out, q.ssthresh, ack)));
    Grant(sndcnt, Min(U32_MAX, ack.inflight + sndcnt))
  }

  /** A reduction (ssthresh at most RecoverFS) never saturates, so the grant is the RFC's. */
  lemma GrantFollowsRfc(p: Prr, ack: Ack)
    requires Ready(p) && p.ssthresh <= p.recoverFs && ack.delivered > 0
    ensures var delivered := SatAdd(p.delivered, ack.delivered);
            var exact := RfcSndcnt(RateShare(delivered, p.ssthresh, p.recoverFs),
                                   delivered, p.out, p.ssthresh, ack);
            Granted(p, ack).sndcnt == Min(U32_MAX, Max(0, exact))
  {
    hide RateShare;
    ShareBelowDelivered(Charged(p, ack).delivered, p.ssthresh, p.recoverFs);
  }

  /** `struct tcp_shift_prr`. */
  class PrrState {
    var delivered: u64
    var out: u64
    var recoverFs: u32
    var ssthresh: u32
    var active: bool

    function View(): Prr
      reads this
    { Prr(delivered, out, recoverFs, ssthresh, active) }

    constructor ()
      ensures View() == IDLE
    {
      delivered, out, recoverFs, ssthresh, active := 0, 0, 0, 0, false;
    }

    method Reset()
      modifies this
      ensures View() == IDLE
    {
      delivered, out, recoverFs, ssthresh, active := 0, 0, 0, 0, false;
    }

    method Init(recoverFs: u32, ssthresh: u32) returns (ok: bool)
      modifies this
      ensures ok == (recoverFs != 0 && ssthresh != 0)
      ensures View() == if ok then Prr(0, 0, recoverFs, ssthresh, true) else old(View())
    {
      if recoverFs == 0 || ssthresh == 0 { return false; }
      this.delivered, this.out, this.active := 0, 0, true;
      this.recoverFs, this.ssthresh := recoverFs, ssthresh;
      return true;
    }

    method OnAck(ack: Ack) returns (ok: bool, grant: Grant)
      modifies this`delivered
      ensures ok == (Ready(old(View())) && ack.smss != 0)
      ensures View() == if ok then Charged(old(View()), ack) else old(View())
      ensures ok ==> grant == Granted(old(View()), ack)
    {
      hide RfcSndcnt, RateShare;
      grant := Grant(0, ack.inflight);
      if !active || recoverFs == 0 || ssthresh == 0 || ack.smss == 0 { return false, grant; }
      if ack.delivered == 0 { return true, grant; }
      delivered := SatAdd(delivered, ack.delivered);
      var sndcnt := Allowance(ack);
      var clipped: u32 := if sndcnt > U32_MAX then U32_MAX else sndcnt;
      grant := Grant(clipped, if clipped > U32_MAX - ack.inflight then U32_MAX else ack.inflight + clipped);
      return true, grant;
    }

    /** The proportional share above ssthresh; below it, the slow-start bound up to
        the remaining room; and one segment if nothing has been sent yet. */
    method Allowance(ack: Ack) returns (sndcnt: u64)
      requires recoverFs > 0 && ssthresh > 0
      ensures Min(U32_MAX, sndcnt) == Min(U32_MAX, Max(0,
        RfcSndcnt(Min(RateShare(delivered, ssthresh, recoverFs), U64_MAX), delivered, out, ssthresh, ack)))
    {
      hide ProductCeil, RateShare, CeilScaled;
      if ack.inflight > ssthresh {
        var allowed := ProductCeil(delivered, ssthresh, recoverFs);
        AllowedIsShare(delivered, ssthresh, recoverFs);
        sndcnt := if allowed > out then allowed - out else 0;
        if out == 0 && sndcnt == 0 { sndcnt := ack.smss; }
        return;
      }
      var deliveredMinusOut := if delivered > out then delivered - out else 0;
      sndcnt := if deliveredMinusOut > ack.delivered then deliveredMinusOut else ack.delivered;
      if ack.safe { sndcnt := SatAdd(sndcnt, ack.smss); }
      var room := if ssthresh > ack.inflight then ssthresh - ack.inflight else 0;
      if sndcnt > room { sndcnt := room; }
      if out == 0 && sndcnt == 0 { sndcnt := ack.smss; }
    }

    method OnSend(bytes: u32) returns (ok: bool)
      modifies this`out
      ensures ok == (old(active) && bytes != 0)
      ensures View() == if ok then old(View()).(out := SatAdd(old(out), bytes)) else old(View())
    {
      if !active || bytes == 0 { return false; }
      out := SatAdd(out, bytes);
      return true;
    }

    /** Leaving recovery hands the controller's own threshold back as cwnd. */
    method Complete() returns (ok: bool, cwnd: u32)
      modifies this
      ensures ok == (old(active) && old(ssthresh) != 0)
      ensures ok ==> cwnd == old(ssthresh) && View() == IDLE
      ensures !ok ==> View() == old(View())
    {
      if !active || ssthresh == 0 { return false, 0; }
      cwnd := ssthresh;
      Reset();
      return true, cwnd;
    }
  }

  /** The code's saturating share is the exact one, clipped to 64 bits. */
  lemma AllowedIsShare(delivered: u64, ssthresh: u32, recoverFs: u32)
    requires recoverFs > 0 && ssthresh > 0
    ensures ProductCeil(delivered, ssthresh, recoverFs) == Min(RateShare(delivered, ssthresh, recoverFs), U64_MAX)
  {
    hide ProductCeil;
    MulNonNegative(delivered, ssthresh);
  }

  /** The share of a positive amount is positive; it only grows with the amount. */
  lemma ShareMono(a: nat, b: nat, ssthresh: nat, rfs: nat)
    requires rfs > 0 && ssthresh > 0 && a <= b
    ensures RateShare(a, ssthresh, rfs) <= RateShare(b, ssthresh, rfs)
    ensures a > 0 ==> RateShare(a, ssthresh, rfs) > 0
  {
    MulMono(a, b, ssthresh);
    CeilDivIsLeast(b * ssthresh, rfs, 0);
    CeilDivIsLeast(a * ssthresh, rfs, RateShare(b, ssthresh, rfs));
    if a > 0 {
      assert a * ssthresh > 0;
      CeilDivIsLeast(a * ssthresh, rfs, 0);
    }
  }

  /** Never more than was delivered when ssthresh does not exceed RecoverFS. */
  lemma ShareBelowDelivered(delivered: nat, ssthresh: nat, rfs: nat)
    requires 0 < ssthresh <= rfs
    ensures RateShare(delivered, ssthresh, rfs) <= delivered
  {
    MulMono(ssthresh, rfs, delivered);
    CeilDivIsLeast(delivered * ssthresh, rfs, delivered);
  }

  /** The grant from both sides, without the pseudo-code. Above ssthresh it fills the
      share: what has been sent and what may be, times RecoverFS, reaches the delivered
      bytes times ssthresh, and one byte less would not. Below, it is the room up to
      ssthresh or what conservation and a safe segment allow, whichever is less; a first
      grant is never nothing. */
  lemma GrantExact(p: Prr, ack: Ack)
    requires Ready(p) && p.ssthresh <= p.recoverFs && 0 < ack.delivered && p.delivered + ack.delivered <= U64_MAX
    ensures var total, g := p.delivered + ack.delivered, Granted(p, ack);
      && g.cwnd == Min(U32_MAX, ack.inflight + g.sndcnt)
      && (ack.inflight > p.ssthresh && g.sndcnt < U32_MAX ==>
            && (p.out + g.sndcnt) * p.recoverFs >= total * p.ssthresh
            && (g.sndcnt > 0 ==> (p.out + g.sndcnt - 1) * p.recoverFs < total * p.ssthresh))
      && (ack.inflight <= p.ssthresh ==>
            var allowed := Min(p.ssthresh - ack.inflight,
                               Max(total - p.out, ack.delivered) + if ack.safe then ack.smss else 0);
            g.sndcnt == Min(U32_MAX, if p.out == 0 && allowed == 0 then ack.smss else allowed))
  {
    var total := p.delivered + ack.delivered;
    var share := RateShare(total, p.ssthresh, p.recoverFs);
    ShareBelowDelivered(total, p.ssthresh, p.recoverFs);
    ShareMono(1, total, p.ssthresh, p.recoverFs);
    ShareExact(total, p.ssthresh, p.recoverFs);
    if ack.inflight > p.ssthresh && Granted(p, ack).sndcnt < U32_MAX {
      hide RateShare;
      var sndcnt := Granted(p, ack).sndcnt;
      assert sndcnt == Max(0, share - p.out);
      MulMono(share, p.out + sndcnt, p.recoverFs);
    }
  }

  lemma ShareExact(total: nat, ssthresh: nat, rfs: nat)
    requires rfs > 0 && ssthresh > 0 && total > 0
    ensures var share := RateShare(total, ssthresh, rfs);
      share > 0 && share * rfs >= total * ssthresh && (share - 1) * rfs < total * ssthresh
  {
    MulNonNegative(total, ssthresh);
    ShareMono(1, total, ssthresh, rfs);
    var share := RateShare(total, ssthresh, rfs);
    CeilDivIsLeast(total * ssthresh, rfs, share - 1);
  }

  // ------------------------------------------------------------ whole episodes

  /** One recovery episode as the adapter sees it: ACK observations and data
      transmissions in any order. A transmission larger than the credit is not
      charged and forfeits what was left of it. */
  datatype Event = AckSeen(delivered: u32, inflight: u32, safe: bool) | Transmit(bytes: u16)
  datatype Sender = Sender(prr: Prr, credit: u32)

  /** The adapter takes a grant only if its window fits the transport. */
  predicate Usable(g: Grant, limit: u32) { 0 < g.cwnd <= limit }

  function Step(s: Sender, smss: u32, limit: u32, e: Event): Sender
    requires Ready(s.prr)
  {
    match e
    case AckSeen(d, inflight, safe) =>
      var ack := Ack(d, inflight, smss, safe);
      if d == 0 then s
      else
        var grant := Granted(s.prr, ack);
        Sender(Charged(s.prr, ack), if Usable(grant, limit) then grant.sndcnt else s.credit)
    case Transmit(n) =>
      if n == 0 then s
      else if n > s.credit then s.(credit := 0)
      else Sender(s.prr.(out := SatAdd(s.prr.out, n)), s.credit - n)
  }

  /** The adapter's side of an active episode: an ACK replaces the credit, a
      transmission spends it. */
  class Gate {
    const prr: PrrState
    var credit: u32

    constructor (prr: PrrState)
      ensures this.prr == prr && credit == 0
    {
      this.prr := prr;
      credit := 0;
    }

    ghost function Value(): Sender
      reads this, prr
    { Sender(prr.View(), credit) }

    /** A grant whose window does not fit is refused after it has been charged. */
    method ApplyAck(ack: Ack, limit: u32) returns (ok: bool)
      requires Ready(prr.View()) && ack.smss > 0
      modifies this, prr
      ensures Ready(prr.View())
      ensures Value() == Step(old(Value()), ack.smss, limit, AckSeen(ack.delivered, ack.inflight, ack.safe))
      ensures ok == (ack.delivered == 0 || 0 < Granted(old(prr.View()), ack).cwnd <= limit)
      ensures credit == if ok && ack.delivered != 0 then Granted(old(prr.View()), ack).sndcnt else old(credit)
    {
      hide Granted;
      if ack.delivered == 0 { return true; }
      var charged, grant := prr.OnAck(ack);
      if grant.cwnd == 0 || grant.cwnd > limit { return false; }
      credit := grant.sndcnt;
      return true;
    }

    method OnSegmentTx(smss: u32, limit: u32, bytes: u16)
      requires Ready(prr.View())
      modifies this, prr
      ensures Ready(prr.View()) && Value() == Step(old(Value()), smss, limit, Transmit(bytes))
      ensures credit == if bytes <= old(credit) then old(credit) - bytes else 0
      ensures prr.out == if bytes <= old(credit) then SatAdd(old(prr.out), bytes) else old(prr.out)
    {
      hide Granted;
      if bytes == 0 { return; }
      var charged := false;
      if bytes <= credit { charged := prr.OnSend(bytes); }
      credit := if charged then credit - bytes else 0;
    }

    /** The send-eligibility gate, then the transmission it lets out: a segment
        leaves exactly when it fits the credit, and then it is charged in full. */
    method Send(smss: u32, limit: u32, bytes: u16) returns (sent: bool)
      requires Ready(prr.View())
      modifies this, prr
      ensures Ready(prr.View()) && sent == Permitted(old(Value()), Transmit(bytes))
      ensures sent ==>
        && Value() == Step(old(Value()), smss, limit, Transmit(bytes))
        && credit == old(credit) - bytes && prr.out == SatAdd(old(prr.out), bytes)
      ensures !sent ==> Value() == old(Value())
    {
      hide Granted;
      if prr.active && bytes > credit { return false; }
      OnSegmentTx(smss, limit, bytes);
      return true;
    }
  }

  /** What the gate lets through. */
  predicate Permitted(s: Sender, e: Event) { e.Transmit? ==> e.bytes <= s.credit }

  function Run(recoverFs: u32, ssthresh: u32, smss: u32, limit: u32, events: seq<Event>): (s: Sender)
    requires recoverFs > 0 && ssthresh > 0
    ensures Ready(s.prr) && s.prr.recoverFs == recoverFs && s.prr.ssthresh == ssthresh
  {
    if events == [] then Sender(Prr(0, 0, recoverFs, ssthresh, true), 0)
    else Step(Run(recoverFs, ssthresh, smss, limit, events[..|events| - 1]), smss, limit, events[|events| - 1])
  }

  function TotalDelivered(events: seq<Event>): nat
  {
    if events == [] then 0 else
    var last := events[|events| - 1];
    TotalDelivered(events[..|events| - 1]) + (if last.AckSeen? then last.delivered else 0)
  }

  function SafeAcks(events: seq<Event>): nat
  {
    if events == [] then 0 else
    var last := events[|events| - 1];
    SafeAcks(events[..|events| - 1]) + (if last.AckSeen? && last.safe then 1 else 0)
  }

  /** Bytes sent against credit, unbounded. */
  function TotalOut(recoverFs: u32, ssthresh: u32, smss: u32, limit: u32, events: seq<Event>): nat
    requires recoverFs > 0 && ssthresh > 0
  {
    if events == [] then 0 else
    var before := events[..|events| - 1];
    var last := events[|events| - 1];
    TotalOut(recoverFs, ssthresh, smss, limit, before)
    + (if last.Transmit? && last.bytes <= Run(recoverFs, ssthresh, smss, limit, before).credit
       then last.bytes else 0)
  }

  /** The 64-bit counters are the unbounded totals, saturated. */
  lemma {:induction false} CountersTrackTotals(rfs: u32, ssthresh: u32, smss: u32, limit: u32, events: seq<Event>)
    requires rfs > 0 && ssthresh > 0
    ensures Run(rfs, ssthresh, smss, limit, events).prr.delivered == Min(TotalDelivered(events), U64_MAX)
    ensures Run(rfs, ssthresh, smss, limit, events).prr.out ==
            Min(TotalOut(rfs, ssthresh, smss, limit, events), U64_MAX)
  {
    if events != [] {
      CountersTrackTotals(rfs, ssthresh, smss, limit, events[..|events| - 1]);
    }
  }

  /** One event moves sent-plus-credit by no more than the data it delivers and
      one segment if it is a SafeACK. `slack` is the allowance used so far. */
  lemma StepBound(s: Sender, smss: u32, limit: u32, e: Event, out: nat, delivered: nat, slack: nat)
    requires Ready(s.prr) && s.prr.ssthresh <= s.prr.recoverFs
    requires s.prr.out == Min(out, U64_MAX) && s.prr.delivered == Min(delivered, U64_MAX)
    requires out + s.credit <= delivered + slack && smss <= slack
    ensures out + (if e.Transmit? && e.bytes <= s.credit then e.bytes else 0) + Step(s, smss, limit, e).credit
            <= delivered + (if e.AckSeen? then e.delivered else 0)
               + slack + (if e.AckSeen? && e.safe then smss else 0)
  {
    hide RateShare;
    if e.AckSeen? && e.delivered > 0 {
      var q := Charged(s.prr, Ack(e.delivered, e.inflight, smss, e.safe));
      ShareBelowDelivered(q.delivered, q.ssthresh, q.recoverFs);
    }
  }

  /** One segment, and one more for each SafeACK. */
  function Allowed(smss: u32, safe: nat): (r: nat)
  { MulNonNegative(smss, 1 + safe); smss * (1 + safe) }

  lemma AllowedGrows(smss: u32, safe: nat)
    ensures Allowed(smss, safe + 1) == Allowed(smss, safe) + smss && Allowed(smss, safe) >= smss
  {
    MulMono(1, 1 + safe, smss);
    assert smss * (1 + (safe + 1)) == smss * (1 + safe) + smss;
  }

  /** Burst bound: over any interleaving, what has been charged plus what may still
      be sent exceeds the data delivered by at most one segment per SafeACK and
      one for the forced first retransmission. */
  lemma {:induction false} EpisodeBound(rfs: u32, ssthresh: u32, smss: u32, limit: u32, events: seq<Event>)
    requires 0 < ssthresh <= rfs
    ensures TotalOut(rfs, ssthresh, smss, limit, events) + Run(rfs, ssthresh, smss, limit, events).credit
            <= TotalDelivered(events) + Allowed(smss, SafeAcks(events))
  {
    hide Step, Allowed;
    AllowedGrows(smss, SafeAcks(events));
    if events != [] {
      var before, last := events[..|events| - 1], events[|events| - 1];
      EpisodeBound(rfs, ssthresh, smss, limit, before);
      CountersTrackTotals(rfs, ssthresh, smss, limit, before);
      AllowedGrows(smss, SafeAcks(before));
      StepBound(Run(rfs, ssthresh, smss, limit, before), smss, limit, last,
          TotalOut(rfs, ssthresh, smss, limit, before),
                TotalDelivered(before), Allowed(smss, SafeAcks(before)));
    }
  }

  /** A run in which every transmission passed the gate. */
  predicate Gated(rfs: u32, ssthresh: u32, smss: u32, limit: u32, events: seq<Event>)
    requires rfs > 0 && ssthresh > 0
  {
    events != [] ==>
      && Gated(rfs, ssthresh, smss, limit, events[..|events| - 1])
      && Permitted(Run(rfs, ssthresh, smss, limit, events[..|events| - 1]), events[|events| - 1])
  }

  /** All bytes transmitted, charged or not. */
  function TotalSent(events: seq<Event>): nat
  {
    if events == [] then 0 else
    var last := events[|events| - 1];
    TotalSent(events[..|events| - 1]) + (if last.Transmit? then last.bytes else 0)
  }

  /** Behind the gate nothing escapes the charge, so both bounds are bounds on every
      byte sent. */
  lemma {:induction false} GatedRunsCharged(rfs: u32, ssthresh: u32, smss: u32, limit: u32, events: seq<Event>)
    requires rfs > 0 && ssthresh > 0 && Gated(rfs, ssthresh, smss, limit, events)
    ensures TotalOut(rfs, ssthresh, smss, limit, events) == TotalSent(events)
  {
    hide Run;
    if events != [] { GatedRunsCharged(rfs, ssthresh, smss, limit, events[..|events| - 1]); }
  }

  lemma GatedEpisodeBound(rfs: u32, ssthresh: u32, smss: u32, limit: u32, events: seq<Event>)
    requires 0 < ssthresh <= rfs && Gated(rfs, ssthresh, smss, limit, events)
    ensures TotalSent(events) + Run(rfs, ssthresh, smss, limit, events).credit
            <= TotalDelivered(events) + Allowed(smss, SafeAcks(events))
  {
    hide Run, Gated, Allowed;
    GatedRunsCharged(rfs, ssthresh, smss, limit, events);
    EpisodeBound(rfs, ssthresh, smss, limit, events);
  }

  /** Proportional phase: while every ACK finds more than ssthresh in flight, the
      sender stays within its exact share, and the forced segment never fires. */
  lemma {:induction false} ProportionalBound(rfs: u32, ssthresh: u32, smss: u32, limit: u32, events: seq<Event>)
    requires rfs > 0 && ssthresh > 0
    requires forall e :: e in events && e.AckSeen? ==> e.inflight > ssthresh
    ensures TotalOut(rfs, ssthresh, smss, limit, events) + Run(rfs, ssthresh, smss, limit, events).credit
            <= RateShare(TotalDelivered(events), ssthresh, rfs)
  {
    hide RateShare;
    if events == [] {
      ShareMono(0, 0, ssthresh, rfs);
      return;
    }
    var before, last := events[..|events| - 1], events[|events| - 1];
    ProportionalBound(rfs, ssthresh, smss, limit, before);
    CountersTrackTotals(rfs, ssthresh, smss, limit, before);
    ShareMono(TotalDelivered(before), TotalDelivered(events), ssthresh, rfs);
    assert last in events;
    if last.AckSeen? && last.delivered > 0 {
      var s := Run(rfs, ssthresh, smss, limit, before);
      var q := Charged(s.prr, Ack(last.delivered, last.inflight, smss, last.safe));
      ShareMono(q.delivered, TotalDelivered(events), ssthresh, rfs);
    }
  }
}
