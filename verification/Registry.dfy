/** The pacing registry: flow handles (id, generation) given to the timer and
    checked when it fires, so that a late release cannot reach another flow. */
module Registry {
  import opened Words

  /** Pacing fields of an adapter; id 0 means not registered. */
  class Flow {
    var id: nat
    var generation: u32
    var scheduled: bool
    /** Bound to a connection that still exists. */
    var attached: bool

    constructor ()
      ensures id == 0 && generation == 0 && !scheduled && attached
    {
      id, generation, scheduled, attached := 0, 0, false, true;
    }
  }

  datatype Entry = Entry(flow: Flow?, generation: u32)

  const INITIAL_ENTRIES := 32
  const VACANT := Entry(null, 0)

  // -------------------------------------------------------------------- generations

  /** Generations run through 1 .. 2^32 - 1 and skip 0. */
  const CYCLE: int := U32_MAX

  function NextGeneration(g: u32): u32
  {
    if g == U32_MAX then 1 else g + 1
  }

  /** The generation of a slot's n-th use. */
  function Generation(n: nat): (g: u32)
  {
    if n == 0 then 0 else 1 + (n - 1) % CYCLE
  }

  lemma GenerationStep(n: nat)
    ensures NextGeneration(Generation(n)) == Generation(n + 1)
  {
    if n > 0 {
      var q, r := (n - 1) / CYCLE, (n - 1) % CYCLE;
      if r == CYCLE - 1 {
        DivUnique(n, CYCLE, q + 1, 0);
      } else {
        DivUnique(n, CYCLE, q, r + 1);
      }
    }
  }

  /** Two uses share a generation exactly when they are a whole number of cycles apart. */
  lemma GenerationRepeats(n: nat, m: nat)
    requires 1 <= n <= m
    ensures Generation(n) == Generation(m) <==> (m - n) % CYCLE == 0
  {
    var a, b := (n - 1) / CYCLE, (n - 1) % CYCLE;
    var d, e := (m - n) / CYCLE, (m - n) % CYCLE;
    assert m - 1 == (a + d) * CYCLE + (b + e);
    if b + e < CYCLE {
      DivUnique(m - 1, CYCLE, a + d, b + e);
    } else {
      DivUnique(m - 1, CYCLE, a + d + 1, b + e - CYCLE);
    }
  }

  function Occupied(entries: seq<Entry>): nat
  {
    if entries == [] then 0
    else Occupied(entries[..|entries| - 1]) + (if entries[|entries| - 1].flow != null then 1 else 0)
  }

  lemma {:induction false} OccupiedUpdate(entries: seq<Entry>, i: nat, e: Entry)
    requires i < |entries|
    ensures Occupied(entries[i := e]) == Occupied(entries)
              - (if entries[i].flow != null then 1 else 0) + (if e.flow != null then 1 else 0)
    ensures entries[i].flow != null ==> Occupied(entries) > 0
  {
    var n := |entries| - 1;
    if i == n {
      assert entries[i := e][..n] == entries[..n];
    } else {
      assert entries[i := e][..n] == entries[..n][i := e];
      OccupiedUpdate(entries[..n], i, e);
    }
  }

  lemma {:induction false} OccupiedPadded(entries: seq<Entry>, more: nat)
    ensures Occupied(entries + seq(more, _ => VACANT)) == Occupied(entries)
  {
    var larger := entries + seq(more, _ => VACANT);
    if more == 0 {
      assert larger == entries;
    } else {
      assert larger[..|larger| - 1] == entries + seq(more - 1, _ => VACANT);
      OccupiedPadded(entries, more - 1);
    }
  }

  predicate Full(entries: seq<Entry>)
  {
    forall i :: 0 <= i < |entries| ==> entries[i].flow != null
  }

  function GrownSize(size: nat): nat { if size == 0 then INITIAL_ENTRIES else 2 * size }

  // ----------------------------------------------------------------------- registry

  class PacingRegistry {
    var entries: seq<Entry>
    var active: nat
    /** Largest table the allocator's size type can describe. */
    const maxEntries: nat
    /** How often each slot has been handed out. */
    ghost var uses: seq<nat>

    ghost function Flows(): set<Flow>
      reads this
    {
      set i | 0 <= i < |entries| && entries[i].flow != null :: entries[i].flow
    }

    /** Live flows know their own slot and generation, so their ids are distinct. */
    ghost predicate Valid()
      reads this, Flows()
    {
      && |uses| == |entries| && active == Occupied(entries)
      && (forall i :: 0 <= i < |entries| ==> entries[i].generation == Generation(uses[i]))
      && (forall i :: 0 <= i < |entries| && entries[i].flow != null ==>
            && entries[i].flow in Flows() && uses[i] > 0
            && entries[i].flow.id == i + 1 && entries[i].flow.generation == entries[i].generation)
    }

    constructor (maxEntries: nat)
      ensures Valid() && entries == [] && active == 0 && this.maxEntries == maxEntries
    {
      this.maxEntries := maxEntries;
      entries, active, uses := [], 0, [];
    }

    /** Distinct live flows hold distinct ids. */
    lemma DistinctIds(i: nat, j: nat)
      requires Valid() && i < |entries| && j < |entries| && i != j
      requires entries[i].flow != null && entries[j].flow != null
      ensures entries[i].flow != entries[j].flow && entries[i].flow.id != entries[j].flow.id
    {
    }

    method Grow(memoryOk: bool) returns (ok: bool)
      requires Valid()
      modifies this
      ensures Valid() && active == old(active) && Flows() == old(Flows())
      ensures ok == (memoryOk && GrownSize(old(|entries|)) <= maxEntries)
      ensures ok ==> |entries| == if old(|entries|) == 0 then 32 else 2 * old(|entries|)
      ensures if ok then
                && entries == old(entries) + seq(GrownSize(old(|entries|)) - old(|entries|), _ => VACANT)
                && uses == old(uses) + seq(GrownSize(old(|entries|)) - old(|entries|), _ => 0)
              else entries == old(entries) && uses == old(uses)
    {
      hide Occupied;
      if !memoryOk || GrownSize(|entries|) > maxEntries { return false; }
      var more := GrownSize(|entries|) - |entries|;
      OccupiedPadded(entries, more);
      ghost var was := entries;
      entries := entries + seq(more, _ => VACANT);
      uses := uses + seq(more, _ => 0);
      assert forall i :: 0 <= i < |was| ==> entries[i] == was[i];
      assert forall i :: |was| <= i < |entries| ==> entries[i] == VACANT;
      return true;
    }

    /** `tcp_shift_pacing_register`: search, and grow when nothing is vacant. The
        second search cannot fail, so the loop runs at most twice. */
    method Register(flow: Flow, memoryOk: bool) returns (ok: bool, ghost slot: nat)
      requires Valid() && flow !in Flows()
      modifies this, flow
      ensures Valid()
      ensures ok == (!Full(old(entries)) || (memoryOk && GrownSize(old(|entries|)) <= maxEntries))
      ensures !ok ==> entries == old(entries) && active == old(active) && uses == old(uses) && flow.id == old(flow.id)
      ensures ok ==>
        && slot < |entries| == |uses| && |entries| >= old(|entries|) && active == old(active) + 1
        && (slot < old(|entries|) ==> old(entries)[slot].flow == null)
        && flow.id == slot + 1 && entries[slot] == Entry(flow, flow.generation)
        && flow.generation == Generation(uses[slot])
        && uses[slot] == (if slot < old(|entries|) then old(uses)[slot] else 0) + 1
        && forall i :: 0 <= i < |entries| && i != slot ==>
             && entries[i] == (if i < old(|entries|) then old(entries)[i] else VACANT)
             && uses[i] == (if i < old(|entries|) then old(uses)[i] else 0)
    {
      hide Generation, Occupied;
      var searches := 0;
      while true
        invariant Valid() && flow !in Flows() && active == old(active) && flow.id == old(flow.id)
        invariant 0 <= searches <= 1
        invariant searches == 0 ==> entries == old(entries) && uses == old(uses)
        invariant searches == 1 ==>
          && Full(old(entries)) && memoryOk && GrownSize(old(|entries|)) <= maxEntries
          && |entries| > old(|entries|) && entries[..old(|entries|)] == old(entries)
          && uses[..old(|entries|)] == old(uses)
          && forall i :: old(|entries|) <= i < |entries| ==> entries[i] == VACANT && uses[i] == 0
        decreases 1 - searches
      {
        var index := 0;
        while index < |entries|
          invariant index <= |entries| && (searches == 1 ==> index <= old(|entries|))
          invariant forall i :: 0 <= i < index ==> entries[i].flow != null
        {
          if entries[index].flow == null {
            slot := index;
            Occupy(flow, index);
            return true, slot;
          }
          index := index + 1;
        }
        var grown := Grow(memoryOk);
        if !grown { return false, 0; }
        searches := searches + 1;
      }
    }

    /** Hand slot i to the flow under a new generation. */
    method Occupy(flow: Flow, i: nat)
      requires Valid() && flow !in Flows() && i < |entries| && entries[i].flow == null
      modifies this, flow
      ensures Valid() && active == old(active) + 1
      ensures uses == old(uses)[i := old(uses)[i] + 1]
      ensures flow.id == i + 1 && flow.generation == Generation(uses[i])
      ensures entries == old(entries)[i := Entry(flow, flow.generation)]
    {
      hide Generation, NextGeneration, Occupied;
      ghost var was := entries;
      GenerationStep(uses[i]);
      var generation := NextGeneration(entries[i].generation);
      OccupiedUpdate(entries, i, Entry(flow, generation));
      entries := entries[i := Entry(flow, generation)];
      uses := uses[i := uses[i] + 1];
      flow.id, flow.generation := i + 1, generation;
      active := active + 1;
      forall j | 0 <= j < |entries| && entries[j].flow != null && j != i
        ensures entries[j].flow != flow
      {
        assert was[j].flow in old(Flows());
      }
    }

    /** `tcp_shift_pacing_unregister`. */
    method Unregister(flow: Flow)
      requires Valid()
      modifies this, flow
      ensures Valid() && flow !in Flows() && uses == old(uses)
      ensures old(flow in Flows()) ==> flow.id == 0 && active == old(active) - 1
      ensures old(flow !in Flows()) ==> active == old(active) && entries == old(entries)
      ensures |entries| == old(|entries|) && forall i :: 0 <= i < |entries| ==>
        entries[i] == if old(entries)[i].flow == flow then old(entries)[i].(flow := null) else old(entries)[i]
    {
      hide Generation, Occupied;
      if flow.id == 0 { return; }
      flow.scheduled := false;
      var index := flow.id - 1;
      ghost var member := flow in Flows();
      assert member ==> index < |entries| && entries[index].flow == flow;
      if index < |entries| && entries[index].flow == flow && entries[index].generation == flow.generation {
        OccupiedUpdate(entries, index, entries[index].(flow := null));
        entries := entries[index := entries[index].(flow := null)];
        if active != 0 { active := active - 1; }
      }
      flow.id, flow.generation := 0, 0;
    }

    /** `tcp_shift_lwip_cc_resume_paced`: any handle that matches no live entry is
        stale and touches nothing; a live flow's timer flag is cleared, and it may
        transmit if it is still attached to its connection. A handle issued at the
        `use`-th use of its slot is honoured exactly while the slot is occupied and a
        whole number of generation cycles has passed since. */
    method Resume(id: nat, generation: u32) returns (resumed: Flow?, transmits: bool)
      requires Valid()
      modifies Flows()
      ensures Valid() && Flows() == old(Flows())
      ensures resumed != null <==>
        0 < id <= |entries| && entries[id - 1].flow != null && entries[id - 1].generation == generation
      ensures resumed != null ==> resumed == entries[id - 1].flow && resumed.id == id && !resumed.scheduled
      ensures transmits == (resumed != null && resumed.attached)
      ensures forall f :: f in Flows() ==>
        f.attached == old(f.attached) && (f != resumed ==> f.scheduled == old(f.scheduled))
      ensures forall use: nat :: 0 < id <= |entries| && 1 <= use <= uses[id - 1] && generation == Generation(use) ==>
        (resumed != null <==> entries[id - 1].flow != null && (uses[id - 1] - use) % CYCLE == 0)
    {
      hide Occupied;
      resumed, transmits := null, false;
      if id == 0 || id > |entries| { return; }
      var entry := entries[id - 1];
      forall use: nat | 1 <= use <= uses[id - 1]
        ensures Generation(use) == entry.generation <==> (uses[id - 1] - use) % CYCLE == 0
      {
        GenerationRepeats(use, uses[id - 1]);
      }
      if entry.flow == null || entry.generation != generation { return; }
      resumed := entry.flow;
      resumed.scheduled := false;
      transmits := resumed.attached;
    }
  }

  /** A handle whose flow has gone is dead for the next 2^32 - 2 reuses of its slot,
      and no longer. */
  lemma StaleHandleBound(use: nat, reuses: nat)
    requires use >= 1
    ensures 1 <= reuses <= TWO32 - 2 ==> Generation(use + reuses) != Generation(use)
    ensures Generation(use + CYCLE) == Generation(use)
  {
    GenerationRepeats(use, use + reuses);
    GenerationRepeats(use, use + CYCLE);
  }
}
