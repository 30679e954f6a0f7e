/** Ten-slot rings of per-round maxima, and the history they summarise: the
    compact-BBR bandwidth filter, which zeroes the slots of skipped rounds, and
    the BBRv3 aggregation filter, which tags each slot with its round. */
module RoundRing {
  import opened Words

  const SPAN: int := 10

  type Slots = s: seq<u64> | |s| == 10 witness [0, 0, 0, 0, 0, 0, 0, 0, 0, 0]
  type Tags = s: seq<nat> | |s| == 10 witness [0, 0, 0, 0, 0, 0, 0, 0, 0, 0]

  const ZEROS: Slots := [0, 0, 0, 0, 0, 0, 0, 0, 0, 0]

  datatype Sample = Sample(round: nat, value: u64)

  // ------------------------------------------------------------------ the naive maximum

  /** The largest value recorded in rounds lo < r <= hi; zero if there is none. */
  ghost function Peak(h: seq<Sample>, lo: int, hi: int): u64
  {
    if h == [] then 0
    else
      var last, rest := h[|h| - 1], Peak(h[..|h| - 1], lo, hi);
      if lo < last.round <= hi then Max(rest, last.value) else rest
  }

  lemma PeakSnoc(h: seq<Sample>, x: Sample, lo: int, hi: int)
    ensures Peak(h + [x], lo, hi) == if lo < x.round <= hi then Max(Peak(h, lo, hi), x.value) else Peak(h, lo, hi)
  {
    assert (h + [x])[..|h|] == h;
  }

  /** Peak is the maximum: no recorded value in range exceeds it, and a non-zero
      peak is one of them. */
  lemma {:induction false} PeakIsMax(h: seq<Sample>, lo: int, hi: int)
    ensures forall i :: 0 <= i < |h| && lo < h[i].round <= hi ==> h[i].value <= Peak(h, lo, hi)
    ensures Peak(h, lo, hi) != 0 ==> exists i :: 0 <= i < |h| && lo < h[i].round <= hi && h[i].value == Peak(h, lo, hi)
  {
    if h != [] {
      var rest := h[..|h| - 1];
      PeakIsMax(rest, lo, hi);
      if Peak(rest, lo, hi) != 0 {
        var i :| 0 <= i < |rest| && lo < rest[i].round <= hi && rest[i].value == Peak(rest, lo, hi);
        assert h[i] == rest[i];
      }
      assert forall i :: 0 <= i < |rest| ==> h[i] == rest[i];
    }
  }

  lemma {:induction false} PeakSplit(h: seq<Sample>, lo: int, mid: int, hi: int)
    requires lo <= mid <= hi
    ensures Peak(h, lo, hi) == Max(Peak(h, lo, mid), Peak(h, mid, hi))
  {
    if h != [] { PeakSplit(h[..|h| - 1], lo, mid, hi); }
  }

  predicate RoundsUpTo(h: seq<Sample>, round: nat) { forall i :: 0 <= i < |h| ==> h[i].round <= round }

  lemma {:induction false} PeakOfFuture(h: seq<Sample>, round: nat, lo: int, hi: int)
    requires RoundsUpTo(h, round) && round <= lo
    ensures Peak(h, lo, hi) == 0
  {
    if h != [] { PeakOfFuture(h[..|h| - 1], round, lo, hi); }
  }

  ghost function AtRound(h: seq<Sample>, r: int): u64 { Peak(h, r - 1, r) }

  /** A bound on every round bounds the window, and a value reached by some round
      is reached by the window. */
  lemma {:induction false} PeakByRounds(h: seq<Sample>, lo: int, hi: int, m: nat)
    requires lo <= hi && forall r :: lo < r <= hi ==> AtRound(h, r) <= m
    ensures Peak(h, lo, hi) <= m
    ensures forall r :: lo < r <= hi ==> AtRound(h, r) <= Peak(h, lo, hi)
    decreases hi - lo
  {
    if lo == hi {
      PeakOfEmpty(h, lo);
    } else {
      PeakByRounds(h, lo, hi - 1, m);
      PeakSplit(h, lo, hi - 1, hi);
      assert AtRound(h, hi) <= m;
    }
  }

  lemma {:induction false} PeakOfEmpty(h: seq<Sample>, lo: int)
    ensures Peak(h, lo, lo) == 0
  {
    if h != [] { PeakOfEmpty(h[..|h| - 1], lo); }
  }

  // --------------------------------------------------------- the zeroing ring (compact BBR)

  function MaxOf(s: seq<u64>): (m: u64)
    ensures forall i :: 0 <= i < |s| ==> s[i] <= m
    ensures m != 0 ==> m in s
  {
    if s == [] then 0 else Max(MaxOf(s[..|s| - 1]), s[|s| - 1])
  }

  datatype Filter = Filter(slots: Slots, round: nat, started: bool, max: u64)

  const EMPTY := Filter(ZEROS, 0, false, 0)

  /** Slot i belongs to one of the rounds old < r <= old + delta. */
  predicate Stale(i: nat, past: nat, delta: nat) { (i - past - 1) % SPAN < delta }

  function Cleared(slots: Slots, past: nat, delta: nat): Slots
  { seq(10, i requires 0 <= i < 10 => if Stale(i, past, delta) then 0 else slots[i]) }

  /** `tcp_shift_bbr_age_bw_filter`. */
  function Aged(f: Filter, round: nat): Filter
  {
    if !f.started then f.(round := round, started := true)
    else if round <= f.round then f
    else
      var slots := if round - f.round >= SPAN then ZEROS else Cleared(f.slots, f.round, round - f.round);
      Filter(slots, round, true, MaxOf(slots))
  }

  /** Ageing to the current round, then recording a rate in its slot. */
  function Admit(f: Filter, round: nat, rate: u64): Filter
  {
    var a := Aged(f, round);
    var slots := a.slots[round % SPAN := Max(a.slots[round % SPAN], rate)];
    a.(slots := slots, max := MaxOf(slots))
  }

  /** The filter holds, slot by slot, the per-round maxima of its last ten rounds. */
  ghost predicate Tracks(f: Filter, h: seq<Sample>)
  {
    && RoundsUpTo(h, f.round) && f.max == MaxOf(f.slots)
    && (f.started <==> h != []) && (h != [] ==> h[|h| - 1].round == f.round) && (h == [] ==> f == EMPTY)
    && (forall r :: f.round - SPAN < r <= f.round ==> f.slots[r % SPAN] == AtRound(h, r))
  }

  lemma {:induction false} MaxOfZeros(n: nat)
    requires n <= 10
    ensures MaxOf(ZEROS[..n]) == 0
  {
    if n > 0 { MaxOfZeros(n - 1); assert ZEROS[..n][..n - 1] == ZEROS[..n - 1]; }
  }

  lemma EmptyTracks()
    ensures Tracks(EMPTY, [])
  {
    MaxOfZeros(10);
    assert ZEROS[..10] == ZEROS;
  }

  /** The published maximum is the naive maximum over the ten rounds that end at
      the latest recorded sample. */
  lemma FilterIsWindowMax(f: Filter, h: seq<Sample>)
    requires Tracks(f, h)
    ensures f.max == Peak(h, f.round - SPAN, f.round)
  {
    hide Peak;
    var lo := f.round - SPAN;
    forall r | lo < r <= f.round ensures AtRound(h, r) <= f.max {
      assert f.slots[r % SPAN] == AtRound(h, r);
    }
    PeakByRounds(h, lo, f.round, f.max);
    if f.max != 0 {
      var i :| 0 <= i < 10 && f.slots[i] == f.max;
      var r := f.round - (f.round - i) % SPAN;
      assert r % SPAN == i by { ResidueOf(f.round, i); }
      assert AtRound(h, r) == f.max;
    }
  }

  /** The one round of the window that uses slot i. */
  lemma ResidueOf(round: nat, i: nat)
    requires i < 10
    ensures (round - (round - i) % SPAN) % SPAN == i
  {
  }

  lemma AgedTracks(f: Filter, h: seq<Sample>, round: nat)
    requires Tracks(f, h) && f.round <= round
    ensures var a := Aged(f, round);
      && a.round == round && RoundsUpTo(h, round)
      && forall r :: round - SPAN < r <= round ==> a.slots[r % SPAN] == AtRound(h, r)
  {
    hide Peak, MaxOf;
    var a := Aged(f, round);
    forall r | round - SPAN < r <= round ensures a.slots[r % SPAN] == AtRound(h, r) {
      if r > f.round {
        PeakOfFuture(h, f.round, r - 1, r);
        if f.started && round - f.round < SPAN { StaleExactly(f.round, round - f.round, r); }
        NothingBefore(f, h, r);
      } else {
        if f.started && f.round < round < f.round + SPAN { StaleExactly(f.round, round - f.round, r); }
        NothingBefore(f, h, r);
      }
    }
  }

  lemma NothingBefore(f: Filter, h: seq<Sample>, r: int)
    requires Tracks(f, h)
    ensures !f.started ==> AtRound(h, r) == 0 && f.slots == ZEROS
    ensures forall i :: 0 <= i < 10 ==> ZEROS[i] == 0
  {
  }

  lemma StaleExactly(round: nat, delta: nat, r: int)
    requires delta < SPAN && round + delta - SPAN < r <= round + delta
    ensures Stale(r % SPAN, round, delta) <==> r > round
  {
  }

  /** Recording one more sample keeps the filter exact, however many rounds were
      skipped since the last one. */
  lemma AdmitTracks(f: Filter, h: seq<Sample>, round: nat, rate: u64)
    requires Tracks(f, h) && f.round <= round
    ensures Tracks(Admit(f, round, rate), h + [Sample(round, rate)])
    ensures Admit(f, round, rate).max >= rate
  {
    hide Peak, MaxOf, Aged;
    AgedTracks(f, h, round);
    AgedStarted(f, round);
    var g, h' := Admit(f, round, rate), h + [Sample(round, rate)];
    forall r | round - SPAN < r <= round ensures g.slots[r % SPAN] == AtRound(h', r) {
      PeakSnoc(h, Sample(round, rate), r - 1, r);
      if r != round { assert r % SPAN != round % SPAN; }
    }
    assert g.slots[round % SPAN] >= rate;
  }

  lemma AgedStarted(f: Filter, round: nat)
    ensures Aged(f, round).started
  {
  }

  /** Any history whose rounds never decrease, recorded one by one. */
  ghost function Recorded(h: seq<Sample>): Filter
  {
    if h == [] then EMPTY else Admit(Recorded(h[..|h| - 1]), h[|h| - 1].round, h[|h| - 1].value)
  }

  lemma {:induction false} RecordedTracks(h: seq<Sample>)
    requires forall i, j :: 0 <= i <= j < |h| ==> h[i].round <= h[j].round
    ensures Tracks(Recorded(h), h)
    ensures Recorded(h).max == Peak(h, Recorded(h).round - SPAN, Recorded(h).round)
  {
    hide Admit, Peak;
    if h == [] {
      EmptyTracks();
    } else {
      var rest, last := h[..|h| - 1], h[|h| - 1];
      RecordedTracks(rest);
      if rest == [] { assert Recorded(rest) == EMPTY; } else { assert Recorded(rest).round == rest[|rest| - 1].round; }
      AdmitTracks(Recorded(rest), rest, last.round, last.value);
      assert rest + [last] == h;
    }
    FilterIsWindowMax(Recorded(h), h);
  }

  // ------------------------------------------------------------- the tagged ring (BBRv3)

  datatype Ring = Ring(values: Slots, rounds: Tags)

  const EMPTY_RING := Ring(ZEROS, [0, 0, 0, 0, 0, 0, 0, 0, 0, 0])

  /** Recording a value: a slot tagged with another round is taken over. */
  function Noted(g: Ring, round: nat, value: u64): Ring
  {
    var i := round % SPAN;
    var kept := if g.rounds[i] == round then g.values[i] else 0;
    Ring(g.values[i := Max(kept, value)], g.rounds[i := round])
  }

  /** Largest value over the first n slots whose tag is among the last len rounds. */
  function Recent(g: Ring, round: nat, len: nat, n: nat): u64
    requires n <= 10
  {
    if n == 0 then 0
    else
      var rest := Recent(g, round, len, n - 1);
      if g.rounds[n - 1] <= round && round - g.rounds[n - 1] < len then Max(rest, g.values[n - 1]) else rest
  }

  /** Slot i speaks for the one round of the window with that residue: tagged with
      it, it holds that round's maximum; tagged otherwise, the round is empty, and
      a foreign tag inside the window (an initial zero) carries no value. */
  ghost predicate SlotTracks(g: Ring, i: nat, round: nat, h: seq<Sample>)
    requires i < 10
  {
    var r := round - (round - i) % SPAN;
    && AtRound(h, r) == (if g.rounds[i] == r then g.values[i] else 0)
    && (round - SPAN < g.rounds[i] <= round && g.rounds[i] != r ==> g.values[i] == 0)
    && g.rounds[i] <= round
  }

  ghost predicate RingTracks(g: Ring, round: nat, h: seq<Sample>)
  {
    RoundsUpTo(h, round) && forall i :: 0 <= i < 10 ==> SlotTracks(g, i, round, h)
  }

  lemma EmptyRingTracks()
    ensures RingTracks(EMPTY_RING, 0, [])
  {
    forall i | 0 <= i < 10 ensures SlotTracks(EMPTY_RING, i, 0, []) {
      assert EMPTY_RING.rounds[i] == 0 && EMPTY_RING.values[i] == 0;
    }
  }

  /** Moving to the next round: the slot it will use still speaks for a round ten
      rounds back, which is no longer in the window. */
  lemma {:induction false} RingAdvances(g: Ring, round: nat, later: nat, h: seq<Sample>)
    requires RingTracks(g, round, h) && round <= later
    ensures RingTracks(g, later, h)
    decreases later - round
  {
    hide Peak;
    if round < later {
      var next := round + 1;
      forall i | 0 <= i < 10 ensures SlotTracks(g, i, next, h) {
        assert SlotTracks(g, i, round, h);
        PeakOfFuture(h, round, round, round + 1);
        var r, r' := round - (round - i) % SPAN, round + 1 - (round + 1 - i) % SPAN;
        assert r' == r || (r' == round + 1 && r == round + 1 - SPAN);
      }
      RingAdvances(g, next, later, h);
    }
  }

  lemma NotedTracks(g: Ring, round: nat, value: u64, h: seq<Sample>)
    requires RingTracks(g, round, h)
    ensures RingTracks(Noted(g, round, value), round, h + [Sample(round, value)])
  {
    hide Peak, Noted, SlotTracks;
    forall i | 0 <= i < 10 ensures SlotTracks(Noted(g, round, value), i, round, h + [Sample(round, value)]) {
      NotedSlot(g, round, value, h, i);
    }
  }

  lemma NotedSlot(g: Ring, round: nat, value: u64, h: seq<Sample>, i: nat)
    requires i < 10 && SlotTracks(g, i, round, h)
    ensures SlotTracks(Noted(g, round, value), i, round, h + [Sample(round, value)])
  {
    hide Peak;
    var r := round - (round - i) % SPAN;
    PeakSnoc(h, Sample(round, value), r - 1, r);
    if i == round % SPAN { SameResidue(round, i); } else { OtherResidue(round, i); }
  }

  lemma SameResidue(round: nat, i: nat)
    requires i == round % SPAN
    ensures (round - i) % SPAN == 0
  {
  }

  lemma OtherResidue(round: nat, i: nat)
    requires i < 10 && i != round % SPAN
    ensures (round - i) % SPAN > 0
  {
  }

  /** Recent is a maximum over the slots. */
  lemma {:induction false} RecentIsMax(g: Ring, round: nat, len: nat, n: nat)
    requires n <= 10
    ensures forall i :: 0 <= i < n && g.rounds[i] <= round && round - g.rounds[i] < len ==>
      g.values[i] <= Recent(g, round, len, n)
    ensures Recent(g, round, len, n) != 0 ==>
      exists i :: 0 <= i < n && g.rounds[i] <= round && round - g.rounds[i] < len
          && g.values[i] == Recent(g, round, len, n)
  {
    if n > 0 { RecentIsMax(g, round, len, n - 1); }
  }

  /** The scan over all slots gives the naive maximum over the last len rounds. */
  lemma RecentIsWindowMax(g: Ring, round: nat, h: seq<Sample>, len: nat)
    requires RingTracks(g, round, h) && 1 <= len <= SPAN
    ensures Recent(g, round, len, 10) == Peak(h, round - len, round)
  {
    hide Peak, Recent;
    RecentIsMax(g, round, len, 10);
    var m := Recent(g, round, len, 10);
    forall r | round - len < r <= round ensures AtRound(h, r) <= m {
      var i := r % SPAN;
      assert SlotTracks(g, i, round, h);
      assert r == round - (round - i) % SPAN;
    }
    PeakByRounds(h, round - len, round, m);
    if m != 0 {
      var i :| 0 <= i < 10 && g.rounds[i] <= round && round - g.rounds[i] < len && g.values[i] == m;
      assert SlotTracks(g, i, round, h);
      assert AtRound(h, g.rounds[i]) == m;
    }
  }
}
