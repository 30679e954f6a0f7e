/** Bytes in flight, seen two ways: as sequence space between SND.UNA and
    SND.NXT less what has been SACKed, and as the ledger's outstanding payload. */
module Flight {
  import opened Words
  import opened RackOrder
  import opened LedgerBook
  import opened Ledger

  // ----------------------------------------------------------- RecoverFS bookkeeping

  /** Bytes of one slot acknowledged beyond the cumulative ACK. */
  function SackedIn(s: Slot, una: u32): nat
  {
    if s.segment == 0 || s.payload == 0 || s.acked == 0 then 0 else
    var offset := SignedDistance(una, s.seqStart);
    var cumulative := if offset > 0 then Min(offset, s.payload) else 0;
    if s.acked > cumulative then s.acked - cumulative else 0
  }

  function SackedSum(slots: seq<Slot>, una: u32): nat
  {
    if slots == [] then 0 else SackedSum(slots[..|slots| - 1], una) + SackedIn(slots[|slots| - 1], una)
  }

  /** `tcp_shift_lwip_cc_prr_sacked_bytes`. */
  method SackedBytes(slots: array<Slot>, una: u32) returns (total: u32)
    ensures total == Min(SackedSum(slots[..], una), U32_MAX)
  {
    hide SackedIn;
    var sum, index := 0, 0;
    while index < slots.Length
      invariant index <= slots.Length && sum == SackedSum(slots[..index], una)
    {
      assert slots[..index + 1][..index] == slots[..index];
      sum := sum + SackedIn(slots[index], una);
      index := index + 1;
    }
    assert slots[..index] == slots[..];
    total := if sum > U32_MAX then U32_MAX else sum;
  }

  /** `tcp_shift_lwip_cc_prr_recover_fs`. */
  method RecoverFs(slots: array<Slot>, una: u32, nxt: u32) returns (fs: u32)
    ensures fs == Max(0, Wrap32(nxt - una) - SackedSum(slots[..], una))
  {
    hide SackedIn, SackedSum;
    var raw := Wrap32(nxt - una);
    var sacked := SackedBytes(slots, una);
    fs := if sacked >= raw then 0 else raw - sacked;
  }

  /** The tracked slots tile the unacknowledged sequence space. */
  ghost predicate Tiles(slots: seq<Slot>, starts: seq<int>, una: int, nxt: int)
    requires |starts| == |slots|
  {
    && una <= nxt < una + TWO32
    && (forall b :: una <= b < nxt ==> Held(slots, starts, b))
    && (forall b :: Held(slots, starts, b) ==> b < nxt)
  }

  /** The ledger has processed the cumulative ACK. */
  ghost predicate UpToDate(slots: seq<Slot>, starts: seq<int>, una: int)
    requires |starts| == |slots|
  {
    forall i :: Occupied(slots, i) ==> Min(slots[i].payload, Max(0, una - starts[i])) <= slots[i].acked
  }

  /** The table as if only the cumulative ACK had been seen. */
  function CumulativeOnly(slots: seq<Slot>, una: u32): (r: seq<Slot>)
    ensures |r| == |slots|
  {
    seq(|slots|, i requires 0 <= i < |slots| => slots[i].(acked := AckedPayload(slots[i], una)))
  }

  /** Slot by slot: what is open under the cumulative ACK alone is open or SACKed. */
  lemma {:induction false} SumSplits(slots: seq<Slot>, k: Book, una: int, n: nat)
    requires Tracks(slots, k) && AckInReach(slots, k.starts, una) && UpToDate(slots, k.starts, una) && n <= |slots|
    ensures Outstanding(CumulativeOnly(slots, Wrap32(una))[..n]) ==
            Outstanding(slots[..n]) + SackedSum(slots[..n], Wrap32(una))
  {
    hide Wrap32, AckedPayload, Separated, Accounted, AckInReach;
    if n == 0 {
      return;
    }
    var cum := CumulativeOnly(slots, Wrap32(una));
    SumSplits(slots, k, una, n - 1);
    assert cum[..n][..n - 1] == cum[..n - 1] && slots[..n][..n - 1] == slots[..n - 1];
    var s := slots[n - 1];
    if Occupied(slots, n - 1) {
      AckedPayloadExact(slots, k, n - 1, una);
      SackedInExact(slots, k, n - 1, una);
    }
  }

  lemma SackedInExact(slots: seq<Slot>, k: Book, i: int, una: int)
    requires Tracks(slots, k) && Occupied(slots, i) && AckInReach(slots, k.starts, una)
    requires Min(slots[i].payload, Max(0, una - k.starts[i])) <= slots[i].acked
    ensures SackedIn(slots[i], Wrap32(una)) == slots[i].acked - Min(slots[i].payload, Max(0, una - k.starts[i]))
  {
    hide Separated, Accounted, SignedDistance;
    SignedDistanceExact(una, k.starts[i]);
  }

  /** Under the cumulative ACK alone, the open bytes are exactly [una, nxt). */
  lemma SpanIsOpen(slots: seq<Slot>, k: Book, una: int, nxt: int)
    requires Tracks(slots, k) && AckInReach(slots, k.starts, una) && Tiles(slots, k.starts, una, nxt)
    ensures Outstanding(CumulativeOnly(slots, Wrap32(una))) == nxt - una
  {
    hide Wrap32, AckedPayload, Accounted, AckInReach, Interval;
    var cum, starts := CumulativeOnly(slots, Wrap32(una)), k.starts;
    forall i ensures Occupied(cum, i) <==> Occupied(slots, i) {
    }
    forall i, b ensures Holds(cum, starts, i, b) <==> Holds(slots, starts, i, b) {
    }
    assert Shaped(cum, starts) && Separated(cum, starts);
    UndeliveredMembers(cum, starts, |cum|);
    assert cum[..|cum|] == cum;
    var open := Undelivered(cum, starts, |cum|);
    hide Shaped, Separated, Undelivered;
    forall b ensures b in open <==> una <= b < nxt {
      if Held(slots, starts, b) {
        var i :| Holds(slots, starts, i, b);
        AckedPayloadExact(slots, k, i, una);
        OpenIffAbove(cum, starts, una, i, b);
      }
    }
    assert open == Interval(una, nxt);
  }

  lemma OpenIffAbove(cum: seq<Slot>, starts: seq<int>, una: int, i: int, b: int)
    requires |cum| == |starts| && Separated(cum, starts)
    requires Holds(cum, starts, i, b) && cum[i].acked == Min(cum[i].payload, Max(0, una - starts[i]))
    ensures OpenBelow(cum, starts, |cum|, b) <==> b >= una
  {
    hide Separated;
    if OpenBelow(cum, starts, |cum|, b) {
      var j :| Holds(cum, starts, j, b) && b >= starts[j] + cum[j].acked;
      OneHolder(cum, starts, i, j, b);
    }
  }

  /** RecoverFS, computed from sequence numbers and SACK state, is the ledger's
      outstanding payload. */
  lemma FlightAgrees(slots: seq<Slot>, k: Book, una: int, nxt: int)
    requires Tracks(slots, k) && AckInReach(slots, k.starts, una)
    requires UpToDate(slots, k.starts, una) && Tiles(slots, k.starts, una, nxt)
    ensures Wrap32(Wrap32(nxt) - Wrap32(una)) - SackedSum(slots, Wrap32(una)) == Outstanding(slots)
  {
    hide Tracks, AckInReach, SackedSum, Outstanding, UpToDate;
    SpanIsOpen(slots, k, una, nxt);
    SumSplits(slots, k, una, |slots|);
    var cum := CumulativeOnly(slots, Wrap32(una));
    assert cum[..|slots|] == cum && slots[..|slots|] == slots;
    SpanWraps(una, nxt);
  }

  lemma SpanWraps(una: int, nxt: int)
    requires una <= nxt < una + TWO32
    ensures Wrap32(Wrap32(nxt) - Wrap32(una)) == nxt - una
  {
    Wrap32Add(nxt, 0 - Wrap32(una));
    assert nxt - Wrap32(una) == (una / TWO32) * TWO32 + (nxt - una);
    DivOfMultiplePlus(una / TWO32, nxt - una, TWO32);
  }

  // ------------------------------------------------------------------ send admission

  datatype Admission = Admission(cwnd: u32, prrActive: bool, credit: u32, sackPolicy: bool)

  /** `tcp_shift_lwip_cc_effective_cwnd` for a bound adapter. */
  function EffectiveCwnd(g: Admission, raw: u32, outstanding: u32): u32
  {
    if g.prrActive then (if raw > U32_MAX - g.credit then U32_MAX else raw + g.credit)
    else if !g.sackPolicy || outstanding >= raw then g.cwnd
    else if g.cwnd > U32_MAX - (raw - outstanding) then U32_MAX
    else g.cwnd + (raw - outstanding)
  }

  /** lwIP admits a segment ending at raw + n past SND.UNA when it fits the window. */
  predicate Admits(g: Admission, raw: u32, outstanding: u32, n: nat)
  { raw + n <= EffectiveCwnd(g, raw, outstanding) }

  /** The adjusted window turns lwIP's sequence-space test into the intended one:
      the unspent PRR credit, or unSACKed flight against cwnd. */
  lemma AdmissionExact(slots: seq<Slot>, k: Book, una: int, nxt: int, g: Admission, n: nat)
    requires Tracks(slots, k) && AckInReach(slots, k.starts, una)
    requires UpToDate(slots, k.starts, una) && Tiles(slots, k.starts, una, nxt)
    requires nxt - una + n <= U32_MAX
    ensures var raw := Wrap32(Wrap32(nxt) - Wrap32(una));
            var outstanding := Min(Outstanding(slots), U32_MAX);
            Admits(g, raw, outstanding, n) <==>
              if g.prrActive then n <= g.credit
              else if g.sackPolicy then Outstanding(slots) + n <= g.cwnd
              else raw + n <= g.cwnd
  {
    hide Tracks, AckInReach, SackedSum, Outstanding, UpToDate, Wrap32;
    FlightAgrees(slots, k, una, nxt);
    assert nxt >= una;
    SpanWraps(una, nxt);
  }
}
