/** What the delivery ledger stands for: the set of payload bytes, named by
    unbounded sequence numbers, that have been sent, delivered and given up. */
module LedgerBook {
  import opened Words
  import opened RackOrder

  /** `starts[i]` is the unbounded first byte of slot i. */
  datatype Book = Book(starts: seq<int>, sent: set<int>, covered: set<int>, abandoned: set<int>)

  /** Occupied slots stay this close together, so that every start and end is
      within reach of a signed 32-bit distance. */
  const WINDOW: int := 0x7FFF_0000

  predicate Occupied(slots: seq<Slot>, i: int) { 0 <= i < |slots| && slots[i].segment != 0 }

  /** Byte b belongs to the payload of slot i. */
  ghost predicate Holds(slots: seq<Slot>, starts: seq<int>, i: int, b: int)
    requires |starts| == |slots|
  {
    Occupied(slots, i) && starts[i] <= b < starts[i] + slots[i].payload
  }

  ghost predicate Shaped(slots: seq<Slot>, starts: seq<int>)
    requires |starts| == |slots|
  {
    forall i :: Occupied(slots, i) ==>
      && slots[i].seqStart == Wrap32(starts[i])
      && slots[i].acked <= slots[i].payload && 0 < slots[i].payload
  }

  ghost predicate Separated(slots: seq<Slot>, starts: seq<int>)
    requires |starts| == |slots|
  {
    forall i, j :: Occupied(slots, i) && Occupied(slots, j) && i != j ==>
      && slots[i].segment != slots[j].segment
      && (starts[i] + slots[i].payload <= starts[j] || starts[j] + slots[j].payload <= starts[i])
      && starts[i] - starts[j] < WINDOW
  }

  ghost predicate Held(slots: seq<Slot>, starts: seq<int>, b: int)
    requires |starts| == |slots|
  { exists i :: Holds(slots, starts, i, b) }

  /** A tracked byte is delivered exactly when it lies in its slot's acknowledged prefix. */
  ghost predicate Settled(slots: seq<Slot>, k: Book)
    requires |k.starts| == |slots|
  {
    forall i, b :: Holds(slots, k.starts, i, b) ==>
      && b in k.sent && b !in k.abandoned
      && (b in k.covered <==> b < k.starts[i] + slots[i].acked)
  }

  /** No byte drops out of the books. */
  ghost predicate Closed(slots: seq<Slot>, k: Book)
    requires |k.starts| == |slots|
  {
    forall b :: b in k.sent ==> b in k.covered || b in k.abandoned || Held(slots, k.starts, b)
  }

  ghost predicate Accounted(slots: seq<Slot>, k: Book)
    requires |k.starts| == |slots|
  {
    && Settled(slots, k) && Closed(slots, k)
    && k.covered <= k.sent && k.abandoned <= k.sent && k.covered !! k.abandoned
  }

  ghost predicate Tracks(slots: seq<Slot>, k: Book)
  {
    && |k.starts| == |slots|
    && Shaped(slots, k.starts) && Separated(slots, k.starts) && Accounted(slots, k)
  }

  // ------------------------------------------------- what the operations do to it

  /** Only these fields matter to the book. */
  predicate SameCoverage(s: Slot, t: Slot)
  {
    s.segment == t.segment && s.seqStart == t.seqStart && s.payload == t.payload && s.acked == t.acked
  }

  lemma TracksFrame(slots: seq<Slot>, slots': seq<Slot>, k: Book)
    requires Tracks(slots, k) && |slots'| == |slots|
    requires forall i :: 0 <= i < |slots| ==> SameCoverage(slots[i], slots'[i])
    ensures Tracks(slots', k)
  {
    hide Wrap32;
    assert forall i :: Occupied(slots', i) <==> Occupied(slots, i);
    forall i, b ensures Holds(slots', k.starts, i, b) <==> Holds(slots, k.starts, i, b) {
    }
  }

  /** A byte belongs to at most one slot. */
  lemma OneHolder(slots: seq<Slot>, starts: seq<int>, i: int, j: int, b: int)
    requires |starts| == |slots| && Separated(slots, starts)
    requires Holds(slots, starts, i, b) && Holds(slots, starts, j, b)
    ensures i == j
  {
  }

  ghost function Advanced(slots: seq<Slot>, k: Book, i: int, n: u16): Book
    requires |k.starts| == |slots| && Occupied(slots, i) && slots[i].acked <= n
  {
    k.(covered := k.covered + Interval(k.starts[i] + slots[i].acked, k.starts[i] + n))
  }

  /** Extending one slot's acknowledged prefix delivers exactly the new bytes. */
  lemma Advance(slots: seq<Slot>, k: Book, i: int, n: u16)
    requires Tracks(slots, k) && Occupied(slots, i) && slots[i].acked <= n <= slots[i].payload
    ensures Tracks(slots[i := slots[i].(acked := n)], Advanced(slots, k, i, n))
    ensures |Advanced(slots, k, i, n).covered| == |k.covered| + (n - slots[i].acked)
  {
    hide Wrap32;
    var slots', starts := slots[i := slots[i].(acked := n)], k.starts;
    forall j ensures Occupied(slots', j) <==> Occupied(slots, j) {
    }
    assert Shaped(slots', starts) by { hide Separated, Accounted; }
    assert Separated(slots', starts) by { hide Shaped, Accounted; }
    AdvanceSettled(slots, k, i, n);
    hide Separated, Shaped, Settled;
    forall j, b ensures Holds(slots', starts, j, b) <==> Holds(slots, starts, j, b) {
    }
  }

  lemma AdvanceSettled(slots: seq<Slot>, k: Book, i: int, n: u16)
    requires |k.starts| == |slots| && Separated(slots, k.starts) && Settled(slots, k) && k.covered !! k.abandoned
    requires Occupied(slots, i) && slots[i].acked <= n <= slots[i].payload
    ensures Settled(slots[i := slots[i].(acked := n)], Advanced(slots, k, i, n))
    ensures |Advanced(slots, k, i, n).covered| == |k.covered| + (n - slots[i].acked)
    ensures Advanced(slots, k, i, n).covered <= k.covered + k.sent
    ensures Advanced(slots, k, i, n).covered !! k.abandoned
  {
    hide Separated, Interval;
    var gained := Interval(k.starts[i] + slots[i].acked, k.starts[i] + n);
    var slots', k' := slots[i := slots[i].(acked := n)], Advanced(slots, k, i, n);
    assert forall b :: b in gained ==> Holds(slots, k.starts, i, b);
    DisjointCount(k.covered, gained);
    forall j, b | Holds(slots', k.starts, j, b)
      ensures b in k.sent && b !in k.abandoned && (b in k'.covered <==> b < k.starts[j] + slots'[j].acked)
    {
      assert Holds(slots, k.starts, j, b);
      if b in gained { OneHolder(slots, k.starts, i, j, b); }
    }
  }

  ghost function Entered(k: Book, i: nat, s: Slot, start: int): Book
    requires i < |k.starts|
  {
    k.(starts := k.starts[i := start], sent := k.sent + Interval(start, start + s.payload))
  }

  /** A first transmission: new bytes, a new segment, close to what is tracked. */
  ghost predicate Enterable(slots: seq<Slot>, k: Book, s: Slot, start: int)
    requires |k.starts| == |slots|
  {
    && s.segment != 0 && s.seqStart == Wrap32(start) && 0 < s.payload && s.acked == 0
    && (forall j :: Occupied(slots, j) ==>
          slots[j].segment != s.segment && -WINDOW < start - k.starts[j] < WINDOW)
    && Interval(start, start + s.payload) !! k.sent
  }

  lemma Enter(slots: seq<Slot>, k: Book, i: nat, s: Slot, start: int)
    requires Tracks(slots, k) && i < |slots| && !Occupied(slots, i) && Enterable(slots, k, s, start)
    ensures Tracks(slots[i := s], Entered(k, i, s, start))
  {
    hide Wrap32;
    var slots', starts' := slots[i := s], k.starts[i := start];
    forall j ensures Occupied(slots', j) <==> Occupied(slots, j) || j == i {
    }
    assert Shaped(slots', starts') by { hide Separated, Accounted; }
    forall j | Occupied(slots, j)
      ensures k.starts[j] + slots[j].payload <= start || start + s.payload <= k.starts[j]
    {
      hide Separated, Interval;
      var b := Max(start, k.starts[j]);
      assert b in Interval(start, start + s.payload) ==> b !in k.sent;
      assert b < k.starts[j] + slots[j].payload ==> Holds(slots, k.starts, j, b);
    }
    assert Separated(slots', starts') by { hide Accounted, Shaped; }
    EnterAccount(slots, k, i, s, start);
  }

  lemma EnterAccount(slots: seq<Slot>, k: Book, i: nat, s: Slot, start: int)
    requires Tracks(slots, k) && i < |slots| && !Occupied(slots, i) && Enterable(slots, k, s, start)
    ensures Accounted(slots[i := s], Entered(k, i, s, start))
  {
    hide Wrap32, Shaped, Separated, Interval;
    var bytes := Interval(start, start + s.payload);
    var slots', k' := slots[i := s], Entered(k, i, s, start);
    forall j, b ensures Holds(slots', k'.starts, j, b) <==> Holds(slots, k.starts, j, b) || (j == i && b in bytes) {
    }
    assert Settled(slots', k') by { hide Closed; }
    assert Closed(slots', k') by {
      hide Settled;
      forall b | b in k'.sent && b !in k'.covered && b !in k'.abandoned ensures Held(slots', k'.starts, b) {
        if b in bytes { assert Holds(slots', k'.starts, i, b); }
      }
    }
  }

  /** Releasing a slot gives up the bytes it had not seen delivered. */
  ghost function Left(slots: seq<Slot>, k: Book, i: int): Book
    requires |k.starts| == |slots| && Occupied(slots, i) && slots[i].acked <= slots[i].payload
  {
    k.(abandoned := k.abandoned + Interval(k.starts[i] + slots[i].acked, k.starts[i] + slots[i].payload))
  }

  lemma Leave(slots: seq<Slot>, k: Book, i: int)
    requires Tracks(slots, k) && Occupied(slots, i)
    ensures Tracks(slots[i := EMPTY], Left(slots, k, i))
    ensures slots[i].acked == slots[i].payload ==> Left(slots, k, i) == k
  {
    hide Wrap32;
    var slots' := slots[i := EMPTY];
    forall j ensures Occupied(slots', j) <==> Occupied(slots, j) && j != i {
    }
    assert Shaped(slots', k.starts) by { hide Separated, Accounted; }
    assert Separated(slots', k.starts) by { hide Shaped, Accounted; }
    LeaveSettled(slots, k, i);
    LeaveClosed(slots, k, i);
    if slots[i].acked == slots[i].payload {
      assert Left(slots, k, i).abandoned == k.abandoned;
    }
  }

  lemma LeaveSettled(slots: seq<Slot>, k: Book, i: int)
    requires |k.starts| == |slots| && Separated(slots, k.starts) && Settled(slots, k) && k.covered !! k.abandoned
    requires Occupied(slots, i) && slots[i].acked <= slots[i].payload
    ensures Settled(slots[i := EMPTY], Left(slots, k, i))
    ensures Left(slots, k, i).abandoned <= k.abandoned + k.sent
    ensures k.covered !! Left(slots, k, i).abandoned
  {
    hide Separated, Interval;
    var lost := Interval(k.starts[i] + slots[i].acked, k.starts[i] + slots[i].payload);
    var slots' := slots[i := EMPTY];
    assert forall b :: b in lost ==> Holds(slots, k.starts, i, b);
    forall j, b | Holds(slots', k.starts, j, b) ensures Holds(slots, k.starts, j, b) && b !in lost {
      if b in lost { OneHolder(slots, k.starts, i, j, b); }
    }
  }

  lemma LeaveClosed(slots: seq<Slot>, k: Book, i: int)
    requires |k.starts| == |slots| && Settled(slots, k) && Closed(slots, k)
    requires Occupied(slots, i) && slots[i].acked <= slots[i].payload
    ensures Closed(slots[i := EMPTY], Left(slots, k, i))
  {
    hide Interval;
    var slots', k' := slots[i := EMPTY], Left(slots, k, i);
    forall b | b in k.sent && b !in k'.covered && b !in k'.abandoned ensures Held(slots', k.starts, b) {
      assert Held(slots, k.starts, b);
      var j :| Holds(slots, k.starts, j, b);
      assert Holds(slots', k.starts, j, b);
    }
  }

  /** A larger table with empty slots at the end. */
  lemma Enlarge(slots: seq<Slot>, k: Book, more: nat)
    requires Tracks(slots, k)
    ensures Tracks(slots + seq(more, _ => EMPTY), k.(starts := k.starts + seq(more, _ => 0)))
  {
    hide Wrap32;
    var slots', k' := slots + seq(more, _ => EMPTY), k.(starts := k.starts + seq(more, _ => 0));
    forall j ensures Occupied(slots', j) <==> Occupied(slots, j) {
    }
    forall j, b ensures Holds(slots', k'.starts, j, b) <==> Holds(slots, k.starts, j, b) {
    }
  }

  // ---------------------------------------------------------------- conservation

  /** `tcp_shift_delivery_outstanding_payload` before its 32-bit cap. */
  function Outstanding(slots: seq<Slot>): nat
  {
    if slots == [] then 0 else
    var last := slots[|slots| - 1];
    Outstanding(slots[..|slots| - 1])
    + (if last.segment != 0 && last.payload > last.acked then last.payload - last.acked else 0)
  }

  ghost function OwnOpen(slots: seq<Slot>, starts: seq<int>, i: nat): set<int>
    requires |starts| == |slots| && i < |slots| && Shaped(slots, starts)
  {
    if Occupied(slots, i) then Interval(starts[i] + slots[i].acked, starts[i] + slots[i].payload) else {}
  }

  /** Bytes in the first n slots not yet delivered. */
  ghost function Undelivered(slots: seq<Slot>, starts: seq<int>, n: nat): set<int>
    requires |starts| == |slots| && n <= |slots| && Shaped(slots, starts)
  {
    if n == 0 then {} else Undelivered(slots, starts, n - 1) + OwnOpen(slots, starts, n - 1)
  }

  ghost predicate OpenBelow(slots: seq<Slot>, starts: seq<int>, n: int, b: int)
    requires |starts| == |slots|
  { exists i :: i < n && Holds(slots, starts, i, b) && b >= starts[i] + slots[i].acked }

  lemma {:induction false} UndeliveredMembers(slots: seq<Slot>, starts: seq<int>, n: nat)
    requires |starts| == |slots| && n <= |slots| && Shaped(slots, starts) && Separated(slots, starts)
    ensures forall b :: b in Undelivered(slots, starts, n) <==> OpenBelow(slots, starts, n, b)
    ensures |Undelivered(slots, starts, n)| == Outstanding(slots[..n])
  {
    hide Wrap32, Separated, Interval, OpenBelow;
    if n == 0 {
      assert forall b :: !OpenBelow(slots, starts, 0, b) by { NothingOpen(slots, starts); }
      return;
    }
    var i := n - 1;
    UndeliveredMembers(slots, starts, i);
    assert slots[..n][..i] == slots[..i];
    var rest, own := Undelivered(slots, starts, i), OwnOpen(slots, starts, i);
    OpenStep(slots, starts, i);
    DisjointCount(rest, own);
  }

  lemma NothingOpen(slots: seq<Slot>, starts: seq<int>)
    requires |starts| == |slots|
    ensures forall b :: !OpenBelow(slots, starts, 0, b)
  {
  }

  /** The next slot adds its own undelivered bytes, none of which was there before. */
  lemma OpenStep(slots: seq<Slot>, starts: seq<int>, i: nat)
    requires |starts| == |slots| && i < |slots| && Shaped(slots, starts) && Separated(slots, starts)
    ensures forall b :: OpenBelow(slots, starts, i + 1, b) <==>
              OpenBelow(slots, starts, i, b) || b in OwnOpen(slots, starts, i)
    ensures forall b :: b in OwnOpen(slots, starts, i) ==> !OpenBelow(slots, starts, i, b)
  {
    hide Wrap32, Separated, Interval;
    forall b | b in OwnOpen(slots, starts, i)
      ensures OpenBelow(slots, starts, i + 1, b) && !OpenBelow(slots, starts, i, b)
    {
      assert Holds(slots, starts, i, b);
      if OpenBelow(slots, starts, i, b) {
        var j :| j < i && Holds(slots, starts, j, b);
        OneHolder(slots, starts, i, j, b);
      }
    }
  }

  /** Conservation: every byte ever tracked is delivered once, still outstanding,
      or was given up by an early release; nothing is counted twice or lost. */
  lemma Conservation(slots: seq<Slot>, k: Book)
    requires Tracks(slots, k)
    ensures |k.sent| == |k.covered| + Outstanding(slots) + |k.abandoned|
  {
    hide Wrap32, Separated, Shaped, Interval;
    var open := Undelivered(slots, k.starts, |slots|);
    UndeliveredMembers(slots, k.starts, |slots|);
    assert slots[..|slots|] == slots;
    forall b | b in open ensures b in k.sent && b !in k.covered && b !in k.abandoned {
      var i :| Holds(slots, k.starts, i, b) && b >= k.starts[i] + slots[i].acked;
    }
    forall b | b in k.sent && b !in k.covered && b !in k.abandoned ensures b in open {
      assert Held(slots, k.starts, b);
      var i :| Holds(slots, k.starts, i, b);
      assert OpenBelow(slots, k.starts, |slots|, b);
    }
    assert k.sent == k.covered + open + k.abandoned;
    assert |k.covered + open| == |k.covered| + |open|;
    assert |k.covered + open + k.abandoned| == |k.covered + open| + |k.abandoned|;
  }

  // ------------------------------------------------------------- ends and reach

  ghost function Ends(slots: seq<Slot>, starts: seq<int>): (ends: seq<int>)
    requires |starts| == |slots|
    ensures |ends| == |slots|
  {
    seq(|slots|, i requires 0 <= i < |slots| => starts[i] + slots[i].payload)
  }

  /** The RACK passes may rely on unbounded ends. */
  lemma TracksEnds(slots: seq<Slot>, k: Book)
    requires Tracks(slots, k)
    ensures EndsMatch(slots, Ends(slots, k.starts))
  {
    var ends := Ends(slots, k.starts);
    forall i | 0 <= i < |slots| && slots[i].segment != 0 ensures EndSeq(slots[i]) == Wrap32(ends[i]) {
      assert Occupied(slots, i);
      Wrap32Add(k.starts[i], slots[i].payload);
    }
    hide Wrap32, EndSeq;
    forall i, j | 0 <= i < |slots| && 0 <= j < |slots| && slots[i].segment != 0 && slots[j].segment != 0
      ensures Near(ends[i], ends[j]) && (ends[i] == ends[j] ==> i == j)
    {
      assert Occupied(slots, i) && Occupied(slots, j);
    }
  }
}
