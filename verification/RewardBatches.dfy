/** Reward batches: rows with their cost, the running total, and the hash that commits to the rows. */
module RewardBatches {
  import opened Wrappers
  import opened BigEndian
  import opened Entities
  import opened HashChain

  const MAX_BATCH_SIZE := 100

  type Uuid = s: seq<byte> | |s| == 16 witness seq(16, i => 0)

  /** The number of events of a subnet in a cycle, as the counter table lists it. */
  datatype Count = Count(subnet: Uuid, events: uint64)

  datatype SubnetCount = SubnetCount(subnet: Uuid, eventCount: uint64, cost: seq<byte>) {
    /** SubnetCount.EncodeBytes */
    function EncodeBytes(): seq<byte> {
      subnet[..6] + cost
    }
  }

  /** Whether a number takes at most 256 bits. */
  predicate Fits(n: nat) {
    n < WORD
  }

  function Abs(n: int): nat {
    if n < 0 then -n else n
  }

  /** ToUint256: FillBytes writes the absolute value and panics when it needs more than 32 bytes. */
  function ToUint256(n: int): (r: Option<seq<byte>>)
    ensures r.Some? <==> Fits(Abs(n))
    ensures r.Some? ==> |r.value| == 32 && FromBytes(r.value) == Abs(n)
  {
    WordIsPower();
    FixedRoundTrip(Abs(n), 32);
    if Fits(Abs(n)) then Some(Fixed(Abs(n), 32)) else None
  }

  /** int64(eventCount) * messageCost */
  function SubnetTotal(count: Count, messageCost: nat): int {
    ToInt(count.events) * messageCost
  }

  datatype Batch = Batch(
    data: seq<SubnetCount>, first: Option<SubnetCount>, last: Option<SubnetCount>, dataHash: seq<byte>,
    closed: bool, messageCost: seq<byte>, totalValue: seq<byte>, cycle: uint64, index: nat, cycleSize: nat)

  function NewBatch(cycle: uint64, index: nat, messageCost: nat, cycleSize: nat): Batch {
    Batch([], None, None, [], false, ToBytes(messageCost), [], cycle, index, cycleSize)
  }

  /** Append on the batch as a value; None where a number does not fit in 32 bytes. */
  function WithRow(b: Batch, count: Count, hash: seq<byte> -> seq<byte>): Option<Batch> {
    var total := SubnetTotal(count, FromBytes(b.messageCost));
    match (ToUint256(total), ToUint256(FromBytes(b.totalValue) + total))
    case (Some(cost), Some(totalValue)) =>
      var row := SubnetCount(count.subnet, count.events, cost);
      var data := b.data + [row];
      var closes := |data| >= MAX_BATCH_SIZE || |data| == b.cycleSize;
      Some(b.(data := data,
              dataHash := hash((if b.data == [] then [] else b.dataHash) + row.EncodeBytes()),
              totalValue := totalValue,
              first := if |data| == 1 then Some(row) else b.first,
              closed := b.closed || closes,
              last := if closes then Some(row) else b.last))
    case _ => None
  }

  /** The row that is added, its cost and what it adds to the total, and the hash over the one before and the row. */
  ghost predicate IsAppended(before: Batch, after: Batch, count: Count, hash: seq<byte> -> seq<byte>) {
    var signed := if count.events < 0x8000_0000_0000_0000 then count.events
      else count.events - 0x1_0000_0000_0000_0000;
    |after.data| == |before.data| + 1 && after.data[..|before.data|] == before.data &&
    var row := after.data[|before.data|];
    && row.subnet == count.subnet && row.eventCount == count.events
    && |row.cost| == 32 && FromBytes(row.cost) == Abs(signed * FromBytes(before.messageCost))
    && FromBytes(after.totalValue) == Abs(FromBytes(before.totalValue) + signed * FromBytes(before.messageCost))
    && after.dataHash == hash((if before.data == [] then [] else before.dataHash) + (count.subnet[..6] + row.cost))
  }

  lemma RowIsAppended(b: Batch, count: Count, hash: seq<byte> -> seq<byte>)
    requires WithRow(b, count, hash).Some?
    ensures IsAppended(b, WithRow(b, count, hash).value, count, hash)
  {
  }

  class RewardBatch {
    var Data: seq<SubnetCount>
    var First: Option<SubnetCount>
    var Last: Option<SubnetCount>
    var DataHash: seq<byte>
    var Closed: bool
    var MessageCost: seq<byte>
    var TotalValue: seq<byte>
    const Cycle: uint64
    const Index: nat
    const cycleSize: nat

    function View(): Batch
      reads this
    {
      Batch(Data, First, Last, DataHash, Closed, MessageCost, TotalValue, Cycle, Index, cycleSize)
    }

    constructor (cycle: uint64, index: nat, cycleMessageCost: nat, cycleSize: nat)
      ensures View() == NewBatch(cycle, index, cycleMessageCost, cycleSize)
    {
      Data, First, Last, DataHash, Closed := [], None, None, [], false;
      MessageCost, TotalValue := ToBytes(cycleMessageCost), [];
      Cycle, Index, this.cycleSize := cycle, index, cycleSize;
    }

    method Append(count: Count, hash: seq<byte> -> seq<byte>) returns (panics: bool)
      modifies this
      ensures panics <==> WithRow(old(View()), count, hash).None?
      ensures !panics ==> WithRow(old(View()), count, hash) == Some(View())
      ensures !panics ==> IsAppended(old(View()), View(), count, hash)
    {
      if WithRow(View(), count, hash).Some? {
        RowIsAppended(View(), count, hash);
      }
      if |Data| == 0 {
        DataHash := [];
      }
      var subnetTotal := SubnetTotal(count, FromBytes(MessageCost));
      var cost := ToUint256(subnetTotal);
      if cost.None? {
        return true;
      }
      var row := SubnetCount(count.subnet, count.events, cost.value);
      Data := Data + [row];
      DataHash := hash(DataHash + row.EncodeBytes());
      var totalValue := ToUint256(FromBytes(TotalValue) + subnetTotal);
      if totalValue.None? {
        return true;
      }
      TotalValue := totalValue.value;
      var length := |Data|;
      if length == 1 {
        First := Some(Data[0]);
      }
      if |Data| >= MAX_BATCH_SIZE || |Data| == cycleSize {
        Closed := true;
        Last := Some(Data[length - 1]);
      }
      return false;
    }
  }

  // ---------------------------------------------------------------------------------------------
  // Value conservation.

  function Events(counts: seq<Count>): nat {
    if counts == [] then 0 else Events(counts[..|counts| - 1]) + counts[|counts| - 1].events
  }

  function Costs(data: seq<SubnetCount>): nat {
    if data == [] then 0 else Costs(data[..|data| - 1]) + FromBytes(data[|data| - 1].cost)
  }

  /** The total as the code accumulates it: the absolute value of each signed sum. */
  function Running(counts: seq<Count>, messageCost: nat): nat {
    if counts == [] then 0
    else Abs(Running(counts[..|counts| - 1], messageCost) + SubnetTotal(counts[|counts| - 1], messageCost))
  }

  /** Every cost and every running total takes at most 256 bits. */
  predicate FitsUpTo(counts: seq<Count>, messageCost: nat) {
    counts == [] ||
    (FitsUpTo(counts[..|counts| - 1], messageCost)
     && Fits(Abs(SubnetTotal(counts[|counts| - 1], messageCost))) && Fits(Running(counts, messageCost)))
  }

  function Rows(data: seq<SubnetCount>): seq<seq<byte>> {
    seq(|data|, i requires 0 <= i < |data| => data[i].EncodeBytes())
  }

  /** The rows are those of the counts, in order, each with its cost. */
  ghost predicate Lists(data: seq<SubnetCount>, counts: seq<Count>, messageCost: nat) {
    |data| == |counts| && forall i :: 0 <= i < |data| ==>
      && data[i].subnet == counts[i].subnet && data[i].eventCount == counts[i].events
      && |data[i].cost| == 32 && FromBytes(data[i].cost) == Abs(SubnetTotal(counts[i], messageCost))
  }

  /** A batch after appending the counts: rows, hash, total, boundary and closing. */
  ghost predicate Holds(b: Batch, counts: seq<Count>, messageCost: nat, hash: seq<byte> -> seq<byte>) {
    && FromBytes(b.messageCost) == messageCost
    && Lists(b.data, counts, messageCost)
    && b.dataHash == Chain(hash, Rows(b.data))
    && FromBytes(b.totalValue) == Running(counts, messageCost)
    && b.first == (if counts == [] then None else Some(b.data[0]))
    && (b.closed <==> |counts| >= MAX_BATCH_SIZE || (0 < b.cycleSize <= |counts|))
    && (b.closed && (|counts| >= MAX_BATCH_SIZE || |counts| == b.cycleSize) ==> b.last == Some(b.data[|counts| - 1]))
  }

  lemma NegativeProduct(events: int, k: int, cost: int)
    requires k == 0x1_0000_0000_0000_0000 - events && k > 0
    ensures -((events - 0x1_0000_0000_0000_0000) * cost) == k * cost
    ensures events * cost - k * cost == (events - k) * cost
  {
  }

  lemma ProductSign(a: int, b: int)
    ensures a * b == 0 <==> a == 0 || b == 0
    ensures a >= 0 && b >= 0 ==> a * b >= 0
  {
  }

  /** The cost of a row is exact if and only if the count survives the conversion to int64 up to its sign. */
  lemma CostIsExact(count: Count, messageCost: nat)
    ensures Abs(SubnetTotal(count, messageCost)) == count.events * messageCost
       <==> messageCost == 0 || count.events <= 0x8000_0000_0000_0000
    ensures Abs(SubnetTotal(count, messageCost)) <= count.events * messageCost
    ensures count.events < 0x8000_0000_0000_0000 ==> SubnetTotal(count, messageCost) == count.events * messageCost >= 0
    ensures count.events >= 0x8000_0000_0000_0000 ==> SubnetTotal(count, messageCost) <= 0
  {
    if count.events >= 0x8000_0000_0000_0000 {
      var k := 0x1_0000_0000_0000_0000 - count.events;
      NegativeProduct(count.events, k, messageCost);
      ProductSign(k, messageCost);
      ProductSign(count.events - k, messageCost);
    } else {
      ProductSign(count.events, messageCost);
    }
  }

  lemma Distributes(cost: nat, events: nat, more: nat)
    ensures cost * (events + more) == cost * events + more * cost
    ensures cost * events >= 0 && more * cost >= 0
  {
  }

  lemma RunningIsBelow(before: nat, exact: nat, total: int, share: nat)
    requires before <= exact && 0 <= total + share && total <= share
    ensures Abs(before + total) <= exact + share
    ensures Abs(before + total) == exact + share <==>
      (before == exact && total == share) || (before == 0 && exact == 0 && total + share == 0) || (exact == share == 0)
  {
  }

  /** Every count survives the conversion to int64, except that one of 2^63 may come before any other event. */
  predicate Convertible(counts: seq<Count>) {
    counts == [] ||
    (Convertible(counts[..|counts| - 1]) && Converts(counts[..|counts| - 1], counts[|counts| - 1]))
  }

  predicate Converts(before: seq<Count>, count: Count) {
    count.events < 0x8000_0000_0000_0000 || (count.events == 0x8000_0000_0000_0000 && Events(before) == 0)
  }

  /** The total is the message cost times the events if and only if the cost is zero or the counts are convertible. */
  lemma {:induction false} TotalIsConserved(counts: seq<Count>, messageCost: nat)
    ensures Running(counts, messageCost) <= messageCost * Events(counts)
    ensures Running(counts, messageCost) == messageCost * Events(counts) <==> messageCost == 0 || Convertible(counts)
  {
    if counts != [] {
      var init, last := counts[..|counts| - 1], counts[|counts| - 1];
      TotalIsConserved(init, messageCost);
      ConservedNext(init, last, messageCost);
    }
  }

  lemma ConservedNext(init: seq<Count>, last: Count, messageCost: nat)
    requires Running(init, messageCost) <= messageCost * Events(init)
    requires Running(init, messageCost) == messageCost * Events(init) <==> messageCost == 0 || Convertible(init)
    ensures var next := Abs(Running(init, messageCost) + SubnetTotal(last, messageCost));
      var exact := messageCost * (Events(init) + last.events);
      && next <= exact
      && (next == exact <==> messageCost == 0 || (Convertible(init) && Converts(init, last)))
  {
    CostIsExact(last, messageCost);
    Distributes(messageCost, Events(init), last.events);
    ProductSign(messageCost, Events(init));
    ProductSign(last.events, messageCost);
    RunningIsBelow(Running(init, messageCost), messageCost * Events(init), SubnetTotal(last, messageCost),
                   last.events * messageCost);
  }

  lemma ChainOfAppend(data: seq<SubnetCount>, row: SubnetCount, hash: seq<byte> -> seq<byte>)
    ensures Chain(hash, Rows(data + [row])) == hash(Chain(hash, Rows(data)) + row.EncodeBytes())
  {
    assert Rows(data + [row])[..|data|] == Rows(data);
  }

  lemma FitsOfAppend(counts: seq<Count>, count: Count, messageCost: nat)
    ensures Running(counts + [count], messageCost) ==
      Abs(Running(counts, messageCost) + SubnetTotal(count, messageCost))
    ensures FitsUpTo(counts + [count], messageCost) <==>
      FitsUpTo(counts, messageCost) && Fits(Abs(SubnetTotal(count, messageCost))) &&
        Fits(Running(counts + [count], messageCost))
  {
    assert (counts + [count])[..|counts|] == counts;
  }

  /** Appending panics if and only if the row's cost or the new total needs more than 256 bits. */
  lemma AppendFits(b: Batch, counts: seq<Count>, messageCost: nat, hash: seq<byte> -> seq<byte>, count: Count)
    requires Holds(b, counts, messageCost, hash)
    ensures WithRow(b, count, hash).Some? <==>
      Fits(Abs(SubnetTotal(count, messageCost))) && Fits(Running(counts + [count], messageCost))
  {
    FitsOfAppend(counts, count, messageCost);
  }

  /** What the appended batch is, row by row and in total. */
  lemma AppendHolds(b: Batch, counts: seq<Count>, messageCost: nat, hash: seq<byte> -> seq<byte>, count: Count)
    requires Holds(b, counts, messageCost, hash) && WithRow(b, count, hash).Some?
    ensures Holds(WithRow(b, count, hash).value, counts + [count], messageCost, hash)
  {
    AppendFits(b, counts, messageCost, hash, count);
    FitsOfAppend(counts, count, messageCost);
    var total := SubnetTotal(count, messageCost);
    var row := SubnetCount(count.subnet, count.events, ToUint256(total).value);
    ChainOfAppend(b.data, row, hash);
  }

  /** The costs of the rows add up to the message cost times the events when no count exceeds 2^63. */
  lemma {:induction false} CostsAreConserved(data: seq<SubnetCount>, counts: seq<Count>, messageCost: nat)
    requires Lists(data, counts, messageCost)
    ensures Costs(data) <= messageCost * Events(counts)
    ensures Costs(data) == messageCost * Events(counts) <==>
      messageCost == 0 || forall i :: 0 <= i < |counts| ==> counts[i].events <= 0x8000_0000_0000_0000
  {
    if counts != [] {
      var k := |counts| - 1;
      CostsAreConserved(data[..k], counts[..k], messageCost);
      CostIsExact(counts[k], messageCost);
      Distributes(messageCost, Events(counts[..k]), counts[k].events);
    }
  }

  lemma NewBatchHolds(cycle: uint64, index: nat, messageCost: nat, cycleSize: nat, hash: seq<byte> -> seq<byte>)
    ensures Holds(NewBatch(cycle, index, messageCost, cycleSize), [], messageCost, hash)
  {
    RoundTrip(messageCost);
    assert Rows([]) == [];
  }

  const COST_BOUND := 0x400_0000_0000_0000_0000_0000_0000_0000_0000_0000_0000_0000 // 2^186

  predicate InRange(counts: seq<Count>) {
    forall i :: 0 <= i < |counts| ==> counts[i].events < 0x8000_0000_0000_0000
  }

  lemma ProductBound(a: nat, b: nat, c: nat, d: nat)
    requires a <= c && b <= d
    ensures a * b <= c * d
  {
    assert a * b <= c * b <= c * d;
  }

  /** A hundred counts below 2^63 at a cost below 2^186 stay below 2^256. */
  lemma TotalFits(messageCost: nat, events: nat)
    requires messageCost < COST_BOUND && events <= 100 * 0x8000_0000_0000_0000
    ensures Fits(messageCost * events)
  {
    ProductBound(messageCost, events, COST_BOUND, 100 * 0x8000_0000_0000_0000);
  }

  /** Such counts fit and conserve their value. */
  lemma {:induction false} InRangeFits(counts: seq<Count>, messageCost: nat)
    requires InRange(counts) && |counts| <= MAX_BATCH_SIZE && messageCost < COST_BOUND
    ensures FitsUpTo(counts, messageCost) && Convertible(counts) && Events(counts) <= |counts| * 0x8000_0000_0000_0000
  {
    if counts != [] {
      var last := counts[|counts| - 1];
      InRangeFits(counts[..|counts| - 1], messageCost);
      CostIsExact(last, messageCost);
      TotalIsConserved(counts, messageCost);
      TotalFits(messageCost, last.events);
      TotalFits(messageCost, Events(counts));
      assert last.events * messageCost == messageCost * last.events;
    }
  }

  datatype Generated = Generated(batch: Batch) | NotFound | CostUnknown | Overflow

  /** generateBatch on one page of counts; the message cost comes from the chain and may be unknown. */
  method GenerateBatch(page: seq<Count>, cycle: uint64, index: nat, messageCost: Option<nat>,
                       hash: seq<byte> -> seq<byte>)
    returns (result: Generated)
    requires |page| <= MAX_BATCH_SIZE
    ensures result.NotFound? <==> page == []
    ensures result.CostUnknown? <==> page != [] && messageCost.None?
    ensures result.Overflow? <==> page != [] && messageCost.Some? && !FitsUpTo(page, messageCost.value)
    ensures result.Generated? ==>
      && Holds(result.batch, page, messageCost.value, hash)
      && result.batch.closed && result.batch.first == Some(result.batch.data[0])
      && result.batch.last == Some(result.batch.data[|page| - 1])
      && result.batch.cycle == cycle && result.batch.index == index
  {
    if |page| == 0 {
      return NotFound;
    }
    if messageCost.None? {
      return CostUnknown;
    }
    var batch := new RewardBatch(cycle, index, messageCost.value, |page|);
    NewBatchHolds(cycle, index, messageCost.value, |page|, hash);
    for i := 0 to |page|
      invariant Holds(batch.View(), page[..i], messageCost.value, hash) && FitsUpTo(page[..i], messageCost.value)
      invariant batch.View().cycleSize == |page| && batch.View().cycle == cycle && batch.View().index == index
    {
      var panics := AppendRow(batch, page, i, messageCost.value, hash);
      if panics {
        OverflowStays(page, i + 1, messageCost.value);
        return Overflow;
      }
      if batch.Closed {
        assert i + 1 == |page|;
        break;
      }
    }
    assert page[..|page|] == page;
    return Generated(batch.View());
  }

  /** One step of the loop over a page. */
  method AppendRow(batch: RewardBatch, page: seq<Count>, i: nat, ghost messageCost: nat, hash: seq<byte> -> seq<byte>)
    returns (panics: bool)
    requires i < |page| && Holds(batch.View(), page[..i], messageCost, hash) && FitsUpTo(page[..i], messageCost)
    modifies batch
    ensures panics <==> !FitsUpTo(page[..i + 1], messageCost)
    ensures !panics ==> Holds(batch.View(), page[..i + 1], messageCost, hash)
  {
    NextRow(batch.View(), page, i, messageCost, hash);
    panics := batch.Append(page[i], hash);
  }

  lemma NextRow(b: Batch, page: seq<Count>, i: nat, messageCost: nat, hash: seq<byte> -> seq<byte>)
    requires i < |page| && Holds(b, page[..i], messageCost, hash) && FitsUpTo(page[..i], messageCost)
    ensures WithRow(b, page[i], hash).Some? <==> FitsUpTo(page[..i + 1], messageCost)
    ensures WithRow(b, page[i], hash).Some? ==> Holds(WithRow(b, page[i], hash).value, page[..i + 1], messageCost, hash)
  {
    assert page[..i] + [page[i]] == page[..i + 1];
    AppendFits(b, page[..i], messageCost, hash, page[i]);
    FitsOfAppend(page[..i], page[i], messageCost);
    if WithRow(b, page[i], hash).Some? {
      AppendHolds(b, page[..i], messageCost, hash, page[i]);
    }
  }

  /** A page whose first rows do not fit does not fit. */
  lemma {:induction false} OverflowStays(page: seq<Count>, n: nat, messageCost: nat)
    requires n <= |page| && !FitsUpTo(page[..n], messageCost)
    ensures !FitsUpTo(page, messageCost)
  {
    if n == |page| {
      assert page[..n] == page;
    } else {
      assert page[..|page| - 1][..n] == page[..n];
      OverflowStays(page[..|page| - 1], n, messageCost);
    }
  }

  /** The row a batch commits to: six bytes of the subnet and the cost. */
  lemma RowIsInjective(a: SubnetCount, b: SubnetCount)
    requires |a.cost| == |b.cost| == 32
    ensures |a.EncodeBytes()| == ROW_WIDTH
    ensures a.EncodeBytes() == b.EncodeBytes() <==> a.subnet[..6] == b.subnet[..6] && a.cost == b.cost
  {
    if a.EncodeBytes() == b.EncodeBytes() {
      EqualConcat(a.subnet[..6], a.cost, b.subnet[..6], b.cost);
    }
  }

  /** Two non-empty batches with one DataHash list the same subnet prefixes and costs, or give a collision. */
  lemma DataHashBinds(b: Batch, counts: seq<Count>, cost: nat, other: Batch, others: seq<Count>, otherCost: nat,
                      hash: seq<byte> -> seq<byte>)
    returns (x: seq<byte>, y: seq<byte>)
    requires IsHash(hash) && Holds(b, counts, cost, hash) && Holds(other, others, otherCost, hash)
    requires counts != [] && others != [] && b.dataHash == other.dataHash
    requires |counts| != |others| || exists i :: (0 <= i < |counts| &&
      (counts[i].subnet[..6] != others[i].subnet[..6] ||
       Abs(SubnetTotal(counts[i], cost)) != Abs(SubnetTotal(others[i], otherCost))))
    ensures IsCollision(hash, x, y)
  {
    if |counts| == |others| {
      var i :| 0 <= i < |counts| &&
        (counts[i].subnet[..6] != others[i].subnet[..6] ||
         Abs(SubnetTotal(counts[i], cost)) != Abs(SubnetTotal(others[i], otherCost)));
      RowIsInjective(b.data[i], other.data[i]);
      assert Rows(b.data)[i] != Rows(other.data)[i];
    }
    forall i | 0 <= i < |b.data| ensures |Rows(b.data)[i]| == ROW_WIDTH {
      RowIsInjective(b.data[i], b.data[i]);
    }
    forall i | 0 <= i < |other.data| ensures |Rows(other.data)[i]| == ROW_WIDTH {
      RowIsInjective(other.data[i], other.data[i]);
    }
    x, y := ChainBinds(hash, Rows(b.data), Rows(other.data));
  }
}
