/** What the first RACK pass is for: which delivered segment becomes RACK.segment,
    and which round-trip times it leaves (section 6.2 of RFC 8985). */
module RackSegment {
  import opened Words
  import opened RackOrder

  /** A segment sent once, with a round-trip time that may set the minimum. */
  predicate SentOnce(s: Slot, now: u64) { !s.retransmitted && now > s.txNs }

  /** `least` is the least of `before` and the round-trip times of the segments sent
      once among the first n visited; zero means none is known. */
  ghost predicate LeastRtt(least: u64, before: u64, slots: seq<Slot>, order: seq<nat>, n: nat, now: u64)
    requires n <= |order| && forall k :: 0 <= k < |order| ==> order[k] < |slots|
  {
    && (before != 0 ==> 0 < least <= before)
    && (forall k :: 0 <= k < n && SentOnce(slots[order[k]], now) ==> 0 < least <= now - slots[order[k]].txNs)
    && (least == before
        || exists k :: 0 <= k < n && SentOnce(slots[order[k]], now) && least == now - slots[order[k]].txNs)
  }

  /** A delivered segment whose transmission is known: it was sent in the past, and if
      it was retransmitted its round trip is not impossibly short. */
  predicate Usable(s: Slot, now: u64, least: u64)
  { 0 < s.txNs <= now && !(s.retransmitted && least != 0 && now - s.txNs < least) }

  /** Transmission order on (time, end of sequence). */
  predicate NotLater(tx: u64, end: int, tx': u64, end': int) { tx < tx' || (tx == tx' && end <= end') }

  /** `mins[k]` is the minimum round trip when the k-th segment is visited. */
  ghost predicate Minima(mins: seq<u64>, r: Rack, slots: seq<Slot>, order: seq<nat>, now: u64)
    requires forall k :: 0 <= k < |order| ==> order[k] < |slots|
  { |mins| == |order| && forall k :: 0 <= k < |order| ==> LeastRtt(mins[k], r.minRtt, slots, order, k + 1, now) }

  /** The k-th visited segment is usable. */
  ghost predicate UsableAt(k: int, slots: seq<Slot>, order: seq<nat>, mins: seq<u64>, now: u64)
    requires |mins| == |order| && forall k :: 0 <= k < |order| ==> order[k] < |slots|
  { 0 <= k < |order| && Usable(slots[order[k]], now, mins[k]) }

  /** RACK.segment after the pass is the old one or a usable delivered segment, and no
      usable delivered segment was sent after it. */
  ghost predicate Chosen(r: Rack, r': Rack, slots: seq<Slot>, ends: seq<int>, order: seq<nat>, mins: seq<u64>, now: u64,
      pos: int, pos': int)
    requires |mins| == |order| && |ends| == |slots| && forall k :: 0 <= k < |order| ==> order[k] < |slots|
  {
    && r'.endSeq == Wrap32(pos')
    && ((r'.xmitTs == r.xmitTs && pos' == pos)
        || exists k :: UsableAt(k, slots, order, mins, now)
             && r'.xmitTs == slots[order[k]].txNs && pos' == ends[order[k]])
    && NotLater(r.xmitTs, pos, r'.xmitTs, pos')
    && forall k :: UsableAt(k, slots, order, mins, now) ==>
         NotLater(slots[order[k]].txNs, ends[order[k]], r'.xmitTs, pos')
  }

  ghost predicate LastUsable(k: int, slots: seq<Slot>, order: seq<nat>, mins: seq<u64>, now: u64)
    requires |mins| == |order| && forall k :: 0 <= k < |order| ==> order[k] < |slots|
  {
    && UsableAt(k, slots, order, mins, now)
    && forall j :: k < j < |order| ==> !UsableAt(j, slots, order, mins, now)
  }

  ghost predicate NoneUsable(slots: seq<Slot>, order: seq<nat>, mins: seq<u64>, now: u64)
    requires |mins| == |order| && forall k :: 0 <= k < |order| ==> order[k] < |slots|
  { forall k :: 0 <= k < |order| ==> !UsableAt(k, slots, order, mins, now) }

  /** RACK.rtt is that of the last usable segment in transmission order. */
  ghost predicate Timed(r: Rack, r': Rack, slots: seq<Slot>, order: seq<nat>, mins: seq<u64>, now: u64)
    requires |mins| == |order| && forall k :: 0 <= k < |order| ==> order[k] < |slots|
  {
    && (NoneUsable(slots, order, mins, now) ==> r'.rtt == r.rtt && r'.ackTs == r.ackTs)
    && forall k :: LastUsable(k, slots, order, mins, now) ==>
         r'.rtt == now - slots[order[k]].txNs && r'.ackTs == now
  }

  /** Equal times can be told apart by their ends. */
  ghost predicate SegmentInReach(r: Rack, slots: seq<Slot>, ends: seq<int>, pos: int)
    requires |ends| == |slots|
  { forall i :: 0 <= i < |slots| && slots[i].segment != 0 && slots[i].txNs == r.xmitTs != 0 ==> Near(ends[i], pos) }

  /** The whole first pass: RACK.segment, the minimum and the round-trip time. */
  ghost predicate SegmentJudged(slots: seq<Slot>, ends: seq<int>, r: Rack, r': Rack, pos: int, pos': int,
      order: seq<nat>, now: u64)
    requires |ends| == |slots|
  {
    && (forall k :: 0 <= k < |order| ==> order[k] < |slots|)
    && exists mins :: Minima(mins, r, slots, order, now)
         && Chosen(r, r', slots, ends, order, mins, now, pos, pos') && Timed(r, r', slots, order, mins, now)
  }

  ghost predicate MinimumJudged(slots: seq<Slot>, r: Rack, r': Rack, order: seq<nat>, now: u64)
  {
    && (forall k :: 0 <= k < |order| ==> order[k] < |slots|)
    && LeastRtt(r'.minRtt, r.minRtt, slots, order, |order|, now)
  }

  // --------------------------------------------------------------------------- one segment

  lemma {:induction false} NoteMinimum(r: Rack, slots: seq<Slot>, order: seq<nat>, now: u64)
    requires forall k :: 0 <= k < |order| ==> order[k] < |slots|
    ensures LeastRtt(NoteAll(r, slots, order, now).minRtt, r.minRtt, slots, order, |order|, now)
  {
    hide NoteDelivered;
    if order != [] {
      var n := |order| - 1;
      NoteMinimum(r, slots, order[..n], now);
      MinimumStep(NoteAll(r, slots, order[..n], now), slots[order[n]], now);
      assert forall k :: 0 <= k < n ==> order[k] == order[..n][k];
      var least := NoteAll(r, slots, order[..n], now).minRtt;
      if least != r.minRtt {
        var k :| 0 <= k < n && SentOnce(slots[order[..n][k]], now) && least == now - slots[order[..n][k]].txNs;
        assert order[k] == order[..n][k];
      }
    }
  }

  lemma MinimumStep(r: Rack, s: Slot, now: u64)
    ensures var m := NoteDelivered(r, s, now).minRtt;
      if !SentOnce(s, now) then m == r.minRtt
      else m == if r.minRtt == 0 then now - s.txNs else Min(r.minRtt, now - s.txNs)
  {
    hide SentAfter;
  }

  /** The other fields, once the minimum has been updated. */
  lemma SegmentStep(r: Rack, s: Slot, now: u64)
    ensures var q := NoteDelivered(r, s, now);
      if Usable(s, now, q.minRtt) then
        && q.rtt == now - s.txNs && q.ackTs == now
        && (if SentAfter(s.txNs, EndSeq(s), r.xmitTs, r.endSeq) then q.xmitTs == s.txNs && q.endSeq == EndSeq(s)
            else q.xmitTs == r.xmitTs && q.endSeq == r.endSeq)
      else q.rtt == r.rtt && q.ackTs == r.ackTs && q.xmitTs == r.xmitTs && q.endSeq == r.endSeq
  {
    hide SentAfter, EndSeq;
  }

  // ------------------------------------------------------------------------------ the pass

  /** The first pass, without naming how it visits a segment. */
  lemma {:induction false} NoteLaw(r: Rack, slots: seq<Slot>, ends: seq<int>, order: seq<nat>, now: u64, pos: int)
    returns (mins: seq<u64>, pos': int)
    requires EndsMatch(slots, ends) && |ends| == |slots| && InOrder(slots, ends, true, order)
    requires forall k :: 0 <= k < |order| ==> slots[order[k]].segment != 0
    requires r.endSeq == Wrap32(pos) && SegmentInReach(r, slots, ends, pos)
    ensures Minima(mins, r, slots, order, now)
    ensures var r' := NoteAll(r, slots, order, now);
      Chosen(r, r', slots, ends, order, mins, now, pos, pos') && Timed(r, r', slots, order, mins, now)
  {
    hide NoteDelivered, LeastRtt, Usable, EndSeq, Wrap32, SentAfter, NotLater, EndsMatch, SegmentInReach;
    mins, pos' := [], pos;
    NotLaterSelf(r.xmitTs, pos);
    if order != [] {
      var n := |order| - 1;
      var before := order[..n];
      var mins0, pos0 := NoteLaw(r, slots, ends, before, now, pos);
      var q, s := NoteAll(r, slots, before, now), slots[order[n]];
      var r' := NoteAll(r, slots, order, now);
      mins := mins0 + [r'.minRtt];
      NoteMinimum(r, slots, order, now);
      MinimaSnoc(mins0, r, slots, order, now, r'.minRtt);
      SegmentStep(q, s, now);
      EndOf(slots, ends, order[n]);
      forall k | 0 <= k < n ensures UsableAt(k, slots, order, mins, now) <==> UsableAt(k, slots, before, mins0, now) {
        assert order[k] == before[k] && mins[k] == mins0[k];
      }
      pos' := pos0;
      if UsableAt(n, slots, order, mins, now) {
        UsableSent(s, now, mins[n]);
        Compare(r, q, slots, ends, before, mins0, order[n], now, pos, pos0);
        if SentAfter(s.txNs, EndSeq(s), q.xmitTs, q.endSeq) { pos' := ends[order[n]]; }
        UsableLast(r, q, r', slots, ends, order, mins0, mins, now, pos, pos0, pos');
      } else {
        UsableSkip(r, q, r', slots, ends, order, mins0, mins, now, pos, pos0);
      }
    }
  }

  lemma UsableSent(s: Slot, now: u64, least: u64)
    requires Usable(s, now, least)
    ensures s.txNs != 0
  {
  }

  lemma EndOf(slots: seq<Slot>, ends: seq<int>, i: nat)
    requires EndsMatch(slots, ends) && i < |slots| == |ends| && slots[i].segment != 0
    ensures EndSeq(slots[i]) == Wrap32(ends[i])
  {
  }

  lemma NotLaterSelf(tx: u64, end: int)
    ensures NotLater(tx, end, tx, end)
  {
  }

  lemma MinimaSnoc(mins: seq<u64>, r: Rack, slots: seq<Slot>, order: seq<nat>, now: u64, least: u64)
    requires order != [] && forall k :: 0 <= k < |order| ==> order[k] < |slots|
    requires Minima(mins, r, slots, order[..|order| - 1], now) && LeastRtt(least, r.minRtt, slots, order, |order|, now)
    ensures Minima(mins + [least], r, slots, order, now)
  {
    var n := |order| - 1;
    forall k | 0 <= k < n ensures LeastRtt(mins[k], r.minRtt, slots, order, k + 1, now) {
      var before := order[..n];
      assert LeastRtt(mins[k], r.minRtt, slots, before, k + 1, now);
      assert forall j :: 0 <= j < n ==> before[j] == order[j];
      if mins[k] != r.minRtt {
        var j :| 0 <= j < k + 1 && SentOnce(slots[before[j]], now) && mins[k] == now - slots[before[j]].txNs;
        assert SentOnce(slots[order[j]], now);
      }
    }
  }

  /** The 32-bit comparison is the true one: the current choice is an end of a tracked
      segment, or the old one, which is in reach. */
  lemma Compare(r: Rack, q: Rack, slots: seq<Slot>, ends: seq<int>, before: seq<nat>, mins: seq<u64>, i: nat, now: u64,
      pos: int, pos0: int)
    requires EndsMatch(slots, ends) && |ends| == |slots| && i < |slots| && slots[i].segment != 0 && slots[i].txNs != 0
    requires |mins| == |before|
    requires forall k :: 0 <= k < |before| ==> before[k] < |slots| && slots[before[k]].segment != 0
    requires SegmentInReach(r, slots, ends, pos) && Chosen(r, q, slots, ends, before, mins, now, pos, pos0)
    ensures SentAfter(slots[i].txNs, EndSeq(slots[i]), q.xmitTs, q.endSeq) <==>
      !NotLater(slots[i].txNs, ends[i], q.xmitTs, pos0)
  {
    hide Wrap32, SignedDistance, EndSeq, Usable;
    if slots[i].txNs == q.xmitTs {
      assert Near(ends[i], pos0);
      SignedDistanceExact(ends[i], pos0);
    }
  }

  lemma UsableLast(r: Rack, q: Rack, r': Rack, slots: seq<Slot>, ends: seq<int>, order: seq<nat>, mins0: seq<u64>,
      mins: seq<u64>, now: u64, pos: int, pos0: int, pos': int)
    requires |ends| == |slots| && order != [] && forall k :: 0 <= k < |order| ==> order[k] < |slots|
    requires |mins0| == |order| - 1 && |mins| == |order| && UsableAt(|order| - 1, slots, order, mins, now)
    requires Chosen(r, q, slots, ends, order[..|order| - 1], mins0, now, pos, pos0)
    requires forall k :: 0 <= k < |order| - 1 ==>
      (UsableAt(k, slots, order, mins, now) <==> UsableAt(k, slots, order[..|order| - 1], mins0, now))
    requires var i := order[|order| - 1]; var later := !NotLater(slots[i].txNs, ends[i], q.xmitTs, pos0);
      && r'.xmitTs == (if later then slots[i].txNs else q.xmitTs) && pos' == (if later then ends[i] else pos0)
      && r'.endSeq == Wrap32(pos') && r'.rtt == now - slots[i].txNs && r'.ackTs == now
    ensures Chosen(r, r', slots, ends, order, mins, now, pos, pos') && Timed(r, r', slots, order, mins, now)
  {
    hide Usable, Wrap32;
    var n := |order| - 1;
    var before := order[..n];
    assert forall k :: 0 <= k < n ==> before[k] == order[k];
    if r'.xmitTs == q.xmitTs && pos' == pos0 && !(q.xmitTs == r.xmitTs && pos0 == pos) {
      var k :| UsableAt(k, slots, before, mins0, now) && q.xmitTs == slots[before[k]].txNs && pos0 == ends[before[k]];
      assert UsableAt(k, slots, order, mins, now);
    }
    forall k | UsableAt(k, slots, order, mins, now)
      ensures NotLater(slots[order[k]].txNs, ends[order[k]], r'.xmitTs, pos')
    {
      if k < n { assert UsableAt(k, slots, before, mins0, now); }
    }
  }

  lemma UsableSkip(r: Rack, q: Rack, r': Rack, slots: seq<Slot>, ends: seq<int>, order: seq<nat>, mins0: seq<u64>,
      mins: seq<u64>, now: u64, pos: int, pos0: int)
    requires |ends| == |slots| && order != [] && forall k :: 0 <= k < |order| ==> order[k] < |slots|
    requires |mins0| == |order| - 1 && |mins| == |order| && !UsableAt(|order| - 1, slots, order, mins, now)
    requires Chosen(r, q, slots, ends, order[..|order| - 1], mins0, now, pos, pos0)
    requires Timed(r, q, slots, order[..|order| - 1], mins0, now)
    requires forall k :: 0 <= k < |order| - 1 ==>
      (UsableAt(k, slots, order, mins, now) <==> UsableAt(k, slots, order[..|order| - 1], mins0, now))
    requires r'.rtt == q.rtt && r'.ackTs == q.ackTs && r'.xmitTs == q.xmitTs && r'.endSeq == q.endSeq
    ensures Chosen(r, r', slots, ends, order, mins, now, pos, pos0) && Timed(r, r', slots, order, mins, now)
  {
    hide Usable, Wrap32, NotLater, Timed;
    var n := |order| - 1;
    var before := order[..n];
    assert forall k :: 0 <= k < n ==> before[k] == order[k];
    if !(q.xmitTs == r.xmitTs && pos0 == pos) {
      var k :| UsableAt(k, slots, before, mins0, now) && q.xmitTs == slots[before[k]].txNs && pos0 == ends[before[k]];
      assert UsableAt(k, slots, order, mins, now);
    }
    forall k | UsableAt(k, slots, order, mins, now)
      ensures NotLater(slots[order[k]].txNs, ends[order[k]], r'.xmitTs, pos0)
    {
      assert UsableAt(k, slots, before, mins0, now);
    }
    TimedSkip(r, q, r', slots, order, mins0, mins, now);
  }

  lemma TimedSkip(r: Rack, q: Rack, r': Rack, slots: seq<Slot>, order: seq<nat>, mins0: seq<u64>, mins: seq<u64>,
      now: u64)
    requires order != [] && forall k :: 0 <= k < |order| ==> order[k] < |slots|
    requires |mins0| == |order| - 1 && |mins| == |order| && !UsableAt(|order| - 1, slots, order, mins, now)
    requires Timed(r, q, slots, order[..|order| - 1], mins0, now)
    requires forall k :: 0 <= k < |order| - 1 ==>
      (UsableAt(k, slots, order, mins, now) <==> UsableAt(k, slots, order[..|order| - 1], mins0, now))
    requires r'.rtt == q.rtt && r'.ackTs == q.ackTs
    ensures Timed(r, r', slots, order, mins, now)
  {
    hide Usable;
    var n := |order| - 1;
    var before := order[..n];
    forall k | LastUsable(k, slots, order, mins, now) ensures r'.rtt == now - slots[order[k]].txNs && r'.ackTs == now {
      assert k < n && before[k] == order[k];
      assert UsableAt(k, slots, before, mins0, now);
      forall j | k < j < |before| ensures !UsableAt(j, slots, before, mins0, now) {
        assert !UsableAt(j, slots, order, mins, now);
      }
      assert LastUsable(k, slots, before, mins0, now);
    }
    if NoneUsable(slots, order, mins, now) {
      forall j | 0 <= j < |before| ensures !UsableAt(j, slots, before, mins0, now) {
        assert !UsableAt(j, slots, order, mins, now);
      }
      assert NoneUsable(slots, before, mins0, now);
    }
  }

  /** Out of reach the choice is still the old one or a visited segment's. */
  lemma {:induction false} SegmentFollows(r: Rack, slots: seq<Slot>, ends: seq<int>, order: seq<nat>, now: u64,
      pos: int)
    returns (pos': int)
    requires EndsMatch(slots, ends) && |ends| == |slots| && r.endSeq == Wrap32(pos)
    requires forall k :: 0 <= k < |order| ==> order[k] < |slots| && slots[order[k]].segment != 0
    ensures NoteAll(r, slots, order, now).endSeq == Wrap32(pos')
  {
    hide NoteDelivered, EndSeq, Wrap32, SentAfter, Usable;
    pos' := pos;
    if order != [] {
      var n := |order| - 1;
      pos' := SegmentFollows(r, slots, ends, order[..n], now, pos);
      var q := NoteAll(r, slots, order[..n], now);
      SegmentStep(q, slots[order[n]], now);
      if NoteAll(r, slots, order, now).endSeq != Wrap32(pos') { pos' := ends[order[n]]; }
    }
  }

  /** The second pass leaves the segment and its times alone. */
  lemma {:induction false} DetectKeepsSegment(r: Rack, slots: seq<Slot>, order: seq<nat>)
    requires forall k :: 0 <= k < |order| ==> order[k] < |slots|
    ensures var r' := DetectAll(r, slots, order);
      r' == r.(fack := r'.fack, reorderingSeen := r'.reorderingSeen)
  {
    if order != [] { DetectKeepsSegment(r, slots, order[..|order| - 1]); }
  }

  /** Position p is the end of a tracked segment. */
  ghost predicate TrackedEnd(slots: seq<Slot>, ends: seq<int>, p: int)
    requires |ends| == |slots|
  { exists i :: 0 <= i < |slots| && slots[i].segment != 0 && ends[i] == p }

  /** Both passes over one ACK, as far as RACK.segment is concerned. */
  lemma PassSegment(r: Rack, slots: seq<Slot>, ends: seq<int>, timeOrder: seq<nat>, endOrder: seq<nat>, now: u64,
      pos: int)
    returns (pos': int)
    requires EndsMatch(slots, ends) && |ends| == |slots| && r.endSeq == Wrap32(pos)
    requires InOrder(slots, ends, true, timeOrder) && VisitsAll(slots, 0, timeOrder)
    requires InOrder(slots, ends, false, endOrder)
    ensures var r' := DetectAll(NoteAll(r, slots, timeOrder, now), slots, endOrder);
      && r'.endSeq == Wrap32(pos') && MinimumJudged(slots, r, r', timeOrder, now)
      && (r.xmitTs == 0 || FackInReach(slots, ends, pos) ==>
            && SegmentJudged(slots, ends, r, r', pos, pos', timeOrder, now)
            && ((pos' == pos && r'.xmitTs == r.xmitTs) || TrackedEnd(slots, ends, pos')))
  {
    hide NoteAll, DetectAll, EndsMatch, Wrap32, LeastRtt, NotLater, Usable, Less;
    VisitsTracked(slots, timeOrder);
    var q := NoteAll(r, slots, timeOrder, now);
    NoteMinimum(r, slots, timeOrder, now);
    DetectKeepsSegment(q, slots, endOrder);
    if r.xmitTs == 0 || FackInReach(slots, ends, pos) {
      var mins;
      mins, pos' := NoteLaw(r, slots, ends, timeOrder, now, pos);
      assert Minima(mins, r, slots, timeOrder, now);
    } else {
      pos' := SegmentFollows(r, slots, ends, timeOrder, now, pos);
    }
  }

  lemma VisitsTracked(slots: seq<Slot>, order: seq<nat>)
    requires VisitsAll(slots, 0, order) && forall k :: 0 <= k < |order| ==> order[k] < |slots|
    ensures forall k :: 0 <= k < |order| ==> slots[order[k]].segment != 0
  {
    forall k | 0 <= k < |order| ensures slots[order[k]].segment != 0 {
      assert order[k] in order;
    }
  }
}
