/** TrackReward: which cycles are batched, and which of their counter rows. */
module RewardTracking {
  import opened Wrappers
  import opened BigEndian
  import opened Entities
  import opened RewardBatches

  /** This validator's unclaimed counters of a cycle in query order, and the cycle's message cost if it can be read. */
  datatype CycleTable = CycleTable(counts: seq<Count>, messageCost: Option<nat>)

  function Min(a: nat, b: nat): nat {
    if a < b then a else b
  }

  /** LIMIT 100 OFFSET 100 * index. */
  function Page(t: CycleTable, index: nat): seq<Count> {
    t.counts[Min(index * MAX_BATCH_SIZE, |t.counts|)..Min((index + 1) * MAX_BATCH_SIZE, |t.counts|)]
  }

  /** The batches of pages 1, 2, ... up to the first empty page; none when the cost cannot be read. */
  ghost predicate AreBatchesOf(batches: seq<Batch>, t: CycleTable, cycle: nat, hash: seq<byte> -> seq<byte>) {
    if t.messageCost.None? then batches == []
    else Page(t, |batches| + 1) == [] && AreBatchesOfPages(batches, t, cycle, hash)
  }

  ghost predicate AreBatchesOfPages(batches: seq<Batch>, t: CycleTable, cycle: nat, hash: seq<byte> -> seq<byte>) {
    forall i :: 0 <= i < |batches| ==> IsBatchOf(batches[i], t, cycle, i + 1, hash)
  }

  ghost predicate IsBatchOf(b: Batch, t: CycleTable, cycle: nat, index: nat, hash: seq<byte> -> seq<byte>) {
    && t.messageCost.Some? && Page(t, index) != [] && b.cycle == cycle && b.index == index && b.closed
    && Holds(b, Page(t, index), t.messageCost.value, hash) && FitsUpTo(Page(t, index), t.messageCost.value)
  }

  /** The batches of the pages before one that overflows, where the process panics. */
  ghost predicate AreBatchesBeforeOverflow(batches: seq<Batch>, t: CycleTable, cycle: nat,
                                           hash: seq<byte> -> seq<byte>) {
    && t.messageCost.Some? && Page(t, |batches| + 1) != [] && !FitsUpTo(Page(t, |batches| + 1), t.messageCost.value)
    && AreBatchesOfPages(batches, t, cycle, hash)
  }

  /** The batches of consecutive cycles. */
  ghost predicate AreBatchesFrom(batches: seq<seq<Batch>>, tables: nat -> CycleTable, cycle: nat,
                                 hash: seq<byte> -> seq<byte>) {
    batches == [] ||
    var k := |batches| - 1;
    AreBatchesFrom(batches[..k], tables, cycle, hash) && AreBatchesOf(batches[k], tables(cycle + k), cycle + k, hash)
  }

  lemma NextCycle(batches: seq<seq<Batch>>, tables: nat -> CycleTable, cycle: nat, added: seq<Batch>,
                  hash: seq<byte> -> seq<byte>)
    requires AreBatchesFrom(batches, tables, cycle, hash)
    requires AreBatchesOf(added, tables(cycle + |batches|), cycle + |batches|, hash)
    ensures AreBatchesFrom(batches + [added], tables, cycle, hash)
    ensures Flatten(batches + [added]) == Flatten(batches) + added
  {
    assert (batches + [added])[..|batches|] == batches;
  }

  lemma Concatenate(start: seq<Batch>, middle: seq<Batch>, end: seq<Batch>, before: seq<Batch>, after: seq<Batch>)
    requires before == start + middle && after == before + end
    ensures after == start + (middle + end)
  {
  }

  function Pages(t: CycleTable, n: nat): seq<Count> {
    if n == 0 then [] else Pages(t, n - 1) + Page(t, n)
  }

  /** Pages 1 to n are contiguous and disjoint: together they are the rows from 100 on. */
  lemma {:induction false} PagesAreContiguous(t: CycleTable, n: nat)
    ensures Pages(t, n) == t.counts[Min(100, |t.counts|)..Min((n + 1) * 100, |t.counts|)]
    ensures |Page(t, n)| <= 100
  {
    if n != 0 {
      PagesAreContiguous(t, n - 1);
    }
  }

  /** The batches of a cycle hold every row from the hundred-and-first on, once and in order, and no other row. */
  lemma BatchesHoldTheRest(batches: seq<Batch>, t: CycleTable, cycle: nat, hash: seq<byte> -> seq<byte>)
    requires AreBatchesOf(batches, t, cycle, hash) && t.messageCost.Some?
    ensures Pages(t, |batches|) == t.counts[Min(100, |t.counts|)..]
  {
    PagesAreContiguous(t, |batches|);
    assert |Page(t, |batches| + 1)| == 0;
  }

  /** The cycles a to b - 1. */
  function Range(a: nat, b: nat): seq<nat>
    requires a <= b
  {
    seq(b - a, i requires 0 <= i < b - a => a + i)
  }

  function NumberToByte(n: uint64): seq<byte> {
    Fixed(n, 8)
  }

  function NumberFromByte(s: seq<byte>): uint64
    requires |s| == 8
  {
    FromBytesBound(s);
    EightBytes();
    FromBytes(s)
  }

  lemma EightBytes()
    ensures Power256(8) == 0x1_0000_0000_0000_0000
  {
    assert Power256(2) == 0x1_0000;
    PowerSum(2, 2);
    PowerSum(4, 4);
  }

  lemma NumberRoundTrip(n: uint64)
    ensures NumberFromByte(NumberToByte(n)) == n
  {
    EightBytes();
    FixedRoundTrip(n, 8);
  }

  /** generateBatch on the page of an index, whose query is part of it. */
  method GeneratePage(t: CycleTable, index: nat, cycle: uint64, hash: seq<byte> -> seq<byte>)
    returns (result: Generated)
    ensures result.NotFound? <==> Page(t, index) == []
    ensures !result.NotFound? ==> index * MAX_BATCH_SIZE < |t.counts|
    ensures result.CostUnknown? <==> Page(t, index) != [] && t.messageCost.None?
    ensures result.Overflow? ==>
      t.messageCost.Some? && Page(t, index) != [] && !FitsUpTo(Page(t, index), t.messageCost.value)
    ensures result.Generated? ==> IsBatchOf(result.batch, t, cycle, index, hash)
  {
    result := GenerateBatch(Page(t, index), cycle, index, t.messageCost, hash);
  }

  class ClaimedRewardStore {
    var lastCycle: Option<seq<byte>>
    var unclaimed: seq<Batch>
    ghost var visited: seq<nat>

    /** The last cycle on record; zero before the first. */
    ghost function Last(): nat
      reads this
      requires lastCycle.Some? ==> |lastCycle.value| == 8
    {
      if lastCycle.None? then 0 else NumberFromByte(lastCycle.value)
    }

    /** Every cycle up to the recorded one was visited exactly once, in order. */
    ghost predicate Valid()
      reads this
    {
      (lastCycle.Some? ==> |lastCycle.value| == 8) && visited == Range(1, Last() + 1)
    }

    constructor ()
      ensures Valid() && Last() == 0 && unclaimed == []
    {
      lastCycle, unclaimed, visited := None, [], [];
    }

    /**
     * One pass: visits every cycle after the recorded one and before the current one. A page that does not fit panics
     * in the cycle after the last recorded one, with the batches of its earlier pages stored.
     */
    method TrackReward(tables: nat -> CycleTable, currentCycle: uint64, hash: seq<byte> -> seq<byte>)
      returns (crashed: bool, ghost batches: seq<seq<Batch>>, ghost partial: seq<Batch>)
      requires Valid()
      modifies this
      ensures Valid() && |batches| == Last() - old(Last())
      ensures unclaimed == old(unclaimed) + (Flatten(batches) + partial)
      ensures AreBatchesFrom(batches, tables, old(Last()) + 1, hash)
      ensures !crashed ==>
        partial == [] && Last() == if old(Last()) + 1 < currentCycle then currentCycle - 1 else old(Last())
      ensures crashed ==>
        Last() + 1 < currentCycle && AreBatchesBeforeOverflow(partial, tables(Last() + 1), Last() + 1, hash)
    {
      var lastClaimedCycle: uint64 := 0;
      if lastCycle.Some? {
        lastClaimedCycle := NumberFromByte(lastCycle.value);
      }
      assert lastClaimedCycle == Last();
      if lastClaimedCycle >= currentCycle {
        crashed, batches, partial := false, [], [];
        assert unclaimed == unclaimed + (Flatten(batches) + partial);
        return;
      }
      crashed, batches, partial := VisitCycles(tables, lastClaimedCycle, currentCycle, hash);
    }

    /** The loop over the cycles. */
    method VisitCycles(tables: nat -> CycleTable, last: uint64, currentCycle: uint64, hash: seq<byte> -> seq<byte>)
      returns (crashed: bool, ghost batches: seq<seq<Batch>>, ghost partial: seq<Batch>)
      requires Valid() && Last() == last < currentCycle
      modifies this
      ensures Valid() && |batches| == Last() - last && unclaimed == old(unclaimed) + (Flatten(batches) + partial)
      ensures AreBatchesFrom(batches, tables, last + 1, hash)
      ensures !crashed ==> partial == [] && Last() == currentCycle - 1
      ensures crashed ==>
        Last() + 1 < currentCycle && AreBatchesBeforeOverflow(partial, tables(Last() + 1), Last() + 1, hash)
    {
      crashed, batches, partial := false, [], [];
      var i: uint64 := last + 1;
      while i < currentCycle
        invariant last < i <= currentCycle && Valid() && Last() == i - 1 && !crashed && partial == []
        invariant |batches| == i - 1 - last && unclaimed == old(unclaimed) + Flatten(batches)
        invariant AreBatchesFrom(batches, tables, last + 1, hash)
      {
        crashed, batches, partial := VisitNext(tables, i, old(unclaimed), batches, last + 1, hash);
        if crashed {
          return;
        }
        i := i + 1;
      }
      assert Flatten(batches) + [] == Flatten(batches);
    }

    /** One round of that loop, with the batches of the rounds before it. */
    method VisitNext(tables: nat -> CycleTable, cycle: uint64, ghost start: seq<Batch>, ghost batches: seq<seq<Batch>>,
                     ghost first: nat, hash: seq<byte> -> seq<byte>)
      returns (crashed: bool, ghost more: seq<seq<Batch>>, ghost partial: seq<Batch>)
      requires Valid() && cycle == Last() + 1 == first + |batches|
      requires unclaimed == start + Flatten(batches) && AreBatchesFrom(batches, tables, first, hash)
      modifies this
      ensures Valid() && AreBatchesFrom(more, tables, first, hash)
      ensures !crashed ==>
        Last() == cycle && |more| == |batches| + 1 && unclaimed == start + Flatten(more) && partial == []
      ensures crashed ==>
        && Last() == cycle - 1 && more == batches && unclaimed == start + (Flatten(more) + partial)
        && AreBatchesBeforeOverflow(partial, tables(cycle), cycle, hash)
    {
      ghost var before := unclaimed;
      ghost var added;
      crashed, added := VisitCycle(tables(cycle), cycle, hash);
      Concatenate(start, Flatten(batches), added, before, unclaimed);
      if crashed {
        return true, batches, added;
      }
      NextCycle(batches, tables, first, added, hash);
      return false, batches + [added], [];
    }

    /** Batches the next cycle and records the visit. */
    method VisitCycle(t: CycleTable, cycle: uint64, hash: seq<byte> -> seq<byte>)
      returns (crashed: bool, ghost added: seq<Batch>)
      requires Valid() && cycle == Last() + 1
      modifies this
      ensures Valid() && Last() == (if crashed then old(Last()) else cycle) && unclaimed == old(unclaimed) + added
      ensures if crashed then AreBatchesBeforeOverflow(added, t, cycle, hash) else AreBatchesOf(added, t, cycle, hash)
    {
      crashed, added := BatchCycle(t, cycle, hash);
      if crashed {
        return;
      }
      NumberRoundTrip(cycle);
      lastCycle := Some(NumberToByte(cycle));
      visited := visited + [cycle];
    }

    /** The pages of one cycle: generateBatch from index 1 until it finds no rows or fails. */
    method BatchCycle(t: CycleTable, cycle: uint64, hash: seq<byte> -> seq<byte>)
      returns (crashed: bool, ghost added: seq<Batch>)
      requires Valid()
      modifies this`unclaimed
      ensures Valid() && Last() == old(Last()) && unclaimed == old(unclaimed) + added
      ensures if crashed then AreBatchesBeforeOverflow(added, t, cycle, hash) else AreBatchesOf(added, t, cycle, hash)
    {
      crashed, added := false, [];
      var index := 1;
      while true
        invariant index >= 1 && unclaimed == old(unclaimed) + added
        invariant t.messageCost.None? ==> added == []
        invariant |added| == index - 1 && AreBatchesOfPages(added, t, cycle, hash)
        decreases |t.counts| - index * MAX_BATCH_SIZE
      {
        var result := GeneratePage(t, index, cycle, hash);
        if result.Overflow? {
          return true, added;
        }
        if result.NotFound? {
          break;
        }
        index := index + 1;
        if !result.Generated? {
          break;
        }
        if result.batch.closed {
          unclaimed := unclaimed + [result.batch];
          added := added + [result.batch];
        }
      }
    }
  }
}
