/** What a BBR model learns of the path, as histories: the round-trip times behind
    its two minima, and the bandwidth estimates behind its full-pipe verdict. */
module PathHistory {
  import opened Words

  // ------------------------------------------------------------------- round-trip times

  /** A round-trip sample, or the end of a ProbeRTT hold, which renews a minimum. */
  datatype Timing = Timed(time: u64, rtt: u64) | Renewed(time: u64)

  /** `value` is the k-th entry's round trip, none sampled since is shorter, and its
      stamp is the time of that sample or of a later renewal. */
  ghost predicate LeastSince(h: seq<Timing>, k: int, value: u64, stamp: u64)
  {
    && 0 <= k < |h| && h[k].Timed? && h[k].rtt == value
    && (forall j :: k <= j < |h| && h[j].Timed? ==> value <= h[j].rtt)
    && (stamp == h[k].time || exists j :: k < j < |h| && h[j] == Renewed(stamp))
  }

  ghost predicate IsLeast(h: seq<Timing>, value: u64, stamp: u64) { exists k :: LeastSince(h, k, value, stamp) }

  /** The same, stamped by the sample itself. */
  ghost predicate IsLeastAt(h: seq<Timing>, value: u64, stamp: u64)
  { exists k :: LeastSince(h, k, value, stamp) && h[k].time == stamp }

  predicate Sampled(h: seq<Timing>) { exists k :: 0 <= k < |h| && h[k].Timed? }

  /** A sample starts a minimum of its own. */
  lemma LeastNew(h: seq<Timing>, time: u64, rtt: u64)
    ensures IsLeastAt(h + [Timed(time, rtt)], rtt, time) && IsLeast(h + [Timed(time, rtt)], rtt, time)
    ensures Sampled(h + [Timed(time, rtt)])
  {
    var h' := h + [Timed(time, rtt)];
    assert h'[|h|] == Timed(time, rtt);
    assert LeastSince(h', |h|, rtt, time);
  }

  /** One that is not shorter leaves an old minimum standing; so does a renewal. */
  lemma LeastKept(h: seq<Timing>, x: Timing, value: u64, stamp: u64)
    requires x.Timed? ==> value <= x.rtt
    ensures IsLeast(h, value, stamp) ==> IsLeast(h + [x], value, stamp)
    ensures IsLeastAt(h, value, stamp) ==> IsLeastAt(h + [x], value, stamp)
    ensures Sampled(h + [x]) <==> Sampled(h) || x.Timed?
  {
    var h' := h + [x];
    assert forall j :: 0 <= j < |h| ==> h'[j] == h[j];
    assert h'[|h|] == x;
    forall k | LeastSince(h, k, value, stamp) ensures LeastSince(h', k, value, stamp) {
      if stamp != h[k].time {
        var j :| k < j < |h| && h[j] == Renewed(stamp);
        assert h'[j] == Renewed(stamp);
      }
    }
    if IsLeast(h, value, stamp) { var k :| LeastSince(h, k, value, stamp); assert LeastSince(h', k, value, stamp); }
    if IsLeastAt(h, value, stamp) {
      var k :| LeastSince(h, k, value, stamp) && h[k].time == stamp;
      assert LeastSince(h', k, value, stamp);
    }
  }

  /** A renewal restamps it. */
  lemma LeastRenewed(h: seq<Timing>, value: u64, stamp: u64, time: u64)
    requires IsLeast(h, value, stamp)
    ensures IsLeast(h + [Renewed(time)], value, time)
  {
    var h' := h + [Renewed(time)];
    assert forall j :: 0 <= j < |h| ==> h'[j] == h[j];
    var k :| LeastSince(h, k, value, stamp);
    assert h'[|h|] == Renewed(time);
    assert LeastSince(h', k, value, time);
  }

  // ------------------------------------------------------------------- the full pipe

  /** The bandwidth estimate at a round that counts, or a timeout, which restarts the search. */
  datatype Progress = Round(bw: u64) | Restart

  /** Growth by a quarter. */
  predicate Grew(from: u64, to: u64) { 4 * to >= 5 * from || to == U64_MAX }

  /** The rounds since the last restart. */
  function Since(h: seq<Progress>): seq<u64>
  {
    if h == [] then [] else
    match h[|h| - 1]
    case Restart => []
    case Round(bw) => Since(h[..|h| - 1]) + [bw]
  }

  /** The round that later ones are compared with: the last that grew by a quarter over
      the one before it in this role. */
  function Baseline(b: seq<u64>): (i: nat)
    requires b != []
    ensures i < |b|
  {
    if |b| == 1 then 0 else
    var i := Baseline(b[..|b| - 1]);
    if Grew(b[i], b[|b| - 1]) then |b| - 1 else i
  }

  /** Rounds without growth by a quarter. */
  function Flat(b: seq<u64>): nat { if b == [] then 0 else |b| - 1 - Baseline(b) }

  /** No round after the baseline grew by a quarter over it. */
  lemma {:induction false} BaselineMeaning(b: seq<u64>)
    requires b != []
    ensures forall j :: Baseline(b) < j < |b| ==> !Grew(b[Baseline(b)], b[j])
  {
    if |b| > 1 {
      var n := |b| - 1;
      BaselineMeaning(b[..n]);
      assert forall j :: 0 <= j < n ==> b[..n][j] == b[j];
    }
  }

  lemma FlatSnoc(b: seq<u64>, bw: u64)
    ensures b == [] ==> Baseline(b + [bw]) == 0
    ensures b != [] ==> Baseline(b + [bw]) == if Grew(b[Baseline(b)], bw) then |b| else Baseline(b)
  {
    assert (b + [bw])[..|b|] == b;
  }

  /** Some stretch of three rounds passed without growth. */
  ghost predicate Filled(h: seq<Progress>) { exists n :: 0 <= n <= |h| && Flat(Since(h[..n])) >= 3 }

  lemma FilledSnoc(h: seq<Progress>, x: Progress)
    ensures Filled(h + [x]) <==> Filled(h) || Flat(Since(h + [x])) >= 3
  {
    hide Flat, Since;
    var h' := h + [x];
    assert h'[..|h| + 1] == h';
    assert forall n :: 0 <= n <= |h| ==> h'[..n] == h[..n];
    if Filled(h') {
      var n :| 0 <= n <= |h'| && Flat(Since(h'[..n])) >= 3;
      if n <= |h| { assert Flat(Since(h[..n])) >= 3; }
    }
    if Filled(h) {
      var n :| 0 <= n <= |h| && Flat(Since(h[..n])) >= 3;
      assert Flat(Since(h'[..n])) >= 3;
    }
    if Flat(Since(h')) >= 3 { assert Flat(Since(h'[..|h'|])) >= 3; }
  }

  /** A detector with baseline `bw` and `count` follows the history. */
  ghost predicate Follows(h: seq<Progress>, bw: u64, count: nat, full: bool)
  {
    && (full <==> Filled(h))
    && (!full ==>
          var b := Since(h);
          && bw == (if b == [] then 0 else b[Baseline(b)])
          && (b != [] ==> count == Flat(b) < 3 && bw != 0))
  }

  lemma FollowsNothing()
    ensures Follows([], 0, 0, false)
  {
    var h: seq<Progress> := [];
    assert forall n :: 0 <= n <= |h| ==> h[..n] == [];
  }

  /** One round of the detector. */
  lemma FollowsRound(h: seq<Progress>, bw: u64, count: nat, now: u64)
    requires Follows(h, bw, count, false) && now != 0
    ensures if bw == 0 || Grew(bw, now) then Follows(h + [Round(now)], now, 0, false)
            else Follows(h + [Round(now)], bw, count + 1, count + 1 >= 3)
  {
    var b, h' := Since(h), h + [Round(now)];
    assert h'[..|h|] == h;
    assert Since(h') == b + [now];
    FlatSnoc(b, now);
    hide Since, Baseline;
    FilledSnoc(h, Round(now));
  }

  lemma FollowsRestart(h: seq<Progress>, bw: u64, count: nat, full: bool)
    requires Follows(h, bw, count, full)
    ensures Follows(h + [Restart], 0, count, full)
  {
    FilledSnoc(h, Restart);
    assert Since(h + [Restart]) == [];
  }
}
