/** The statistics store: counters one event at a time, and the windowed form that flushes sums. */
module StatsStore {
  import opened Wrappers
  import opened BigEndian
  import opened Entities
  import opened StatsKeys

  /** Counters as big-endian numbers, and recent events as their ids. */
  type Data = map<RawKey, seq<byte>>

  function Value(data: Data, key: RawKey): nat {
    if key in data then FromBytes(data[key]) else 0
  }

  /** IncrementCounterByKey on the store as a value. */
  function Add(data: Data, key: RawKey, delta: nat): Data {
    data[Clean(key) := ToBytes(Value(data, Clean(key)) + delta)]
  }

  function AddEach(data: Data, keys: seq<RawKey>): Data {
    if keys == [] then data else Add(AddEach(data, keys[..|keys| - 1]), keys[|keys| - 1], 1)
  }

  /** IncrementCounters and IncrementStats for one event. */
  function CountOne(data: Data, e: CountedEvent, idBytes: string -> seq<byte>): Data {
    AddEach(data, CounterKeys(e))[Clean(RecentEventKey(e.cycle)) := idBytes(e.id)]
  }

  function CountAll(data: Data, events: seq<CountedEvent>, idBytes: string -> seq<byte>): Data {
    if events == [] then data
    else CountOne(CountAll(data, events[..|events| - 1], idBytes), events[|events| - 1], idBytes)
  }

  // ---------------------------------------------------------------------------------------------
  // The window.

  /** How often each raw key occurs. */
  function Tally(keys: seq<RawKey>): map<RawKey, nat> {
    if keys == [] then map[] else Increment(Tally(keys[..|keys| - 1]), keys[|keys| - 1])
  }

  function Increment(count: map<RawKey, nat>, key: RawKey): map<RawKey, nat> {
    count[key := Times(count, key) + 1]
  }

  function Times(count: map<RawKey, nat>, key: RawKey): nat {
    if key in count then count[key] else 0
  }

  /** The last event of each cycle. */
  function Recent(events: seq<CountedEvent>): map<RawKey, string> {
    if events == [] then map[]
    else Recent(events[..|events| - 1])[RecentEventKey(events[|events| - 1].cycle) := events[|events| - 1].id]
  }

  /** Adding the tallied sums in the given order of keys. */
  function Flush(data: Data, count: map<RawKey, nat>, order: seq<RawKey>): Data {
    if order == [] then data
    else Add(Flush(data, count, order[..|order| - 1]), order[|order| - 1], Times(count, order[|order| - 1]))
  }

  function PutRecent(data: Data, recent: map<RawKey, string>, idBytes: string -> seq<byte>): Data {
    data + Stored(recent, idBytes)
  }

  predicate IsOrderOf(order: seq<RawKey>, count: map<RawKey, nat>) {
    && (forall i :: 0 <= i < |order| ==> order[i] in count)
    && (forall k :: k in count ==> k in order)
    && Distinct(order)
  }

  // ---------------------------------------------------------------------------------------------
  // Additions commute and accumulate.

  lemma ValueAdded(data: Data, k: RawKey, m: nat)
    ensures Value(Add(data, k, m), Clean(k)) == Value(data, Clean(k)) + m
  {
    RoundTrip(Value(data, Clean(k)) + m);
  }

  lemma PutTwice<K, V>(data: map<K, V>, a: K, x: V, y: V)
    ensures data[a := x][a := y] == data[a := y]
  {
  }

  lemma AddTwice(data: Data, k: RawKey, m: nat, l: RawKey, n: nat)
    requires Clean(k) == Clean(l)
    ensures Add(Add(data, k, m), l, n) == data[Clean(k) := ToBytes(Value(data, Clean(k)) + m + n)]
  {
    ValueAdded(data, k, m);
    PutTwice(data, Clean(k), ToBytes(Value(data, Clean(k)) + m), ToBytes(Value(data, Clean(k)) + m + n));
  }

  lemma PutsCommute<K, V>(data: map<K, V>, a: K, x: V, b: K, y: V)
    requires a != b
    ensures data[a := x][b := y] == data[b := y][a := x]
  {
  }

  lemma AddBeside(data: Data, k: RawKey, m: nat, l: RawKey, n: nat)
    requires Clean(k) != Clean(l)
    ensures Add(Add(data, k, m), l, n) ==
      data[Clean(k) := ToBytes(Value(data, Clean(k)) + m)][Clean(l) := ToBytes(Value(data, Clean(l)) + n)]
  {
    assert Value(Add(data, k, m), Clean(l)) == Value(data, Clean(l));
  }

  lemma AddsCommute(data: Data, k: RawKey, m: nat, l: RawKey, n: nat)
    ensures Add(Add(data, k, m), l, n) == Add(Add(data, l, n), k, m)
  {
    var a, b := Clean(k), Clean(l);
    if a == b {
      AddTwice(data, k, m, l, n);
      AddTwice(data, l, n, k, m);
    } else {
      AddBeside(data, k, m, l, n);
      AddBeside(data, l, n, k, m);
      PutsCommute(data, a, ToBytes(Value(data, a) + m), b, ToBytes(Value(data, b) + n));
    }
  }

  lemma AddsAccumulate(data: Data, k: RawKey, m: nat, n: nat)
    ensures Add(Add(data, k, m), k, n) == Add(data, k, m + n)
  {
    AddTwice(data, k, m, k, n);
  }

  function Without<T>(order: seq<T>, i: nat): seq<T>
    requires i < |order|
  {
    order[..i] + order[i + 1..]
  }

  lemma WithoutSlices<T>(order: seq<T>, i: nat)
    requires i < |order|
    ensures |Without(order, i)| == |order| - 1
    ensures i == |order| - 1 ==> Without(order, i) == order[..i]
    ensures i < |order| - 1 ==> Without(order[..|order| - 1], i) == Without(order, i)[..|order| - 2]
    ensures i < |order| - 1 ==> Without(order, i)[|order| - 2] == order[|order| - 1]
  {
  }

  predicate Distinct<T(==)>(order: seq<T>) {
    forall i, j :: 0 <= i < j < |order| ==> order[i] != order[j]
  }

  lemma WithoutKeepsTheRest<T>(order: seq<T>, i: nat)
    requires i < |order| && Distinct(order)
    ensures forall k :: k in Without(order, i) <==> k in order && k != order[i]
    ensures Distinct(Without(order, i))
  {
    forall k | k in order && k != order[i] ensures k in Without(order, i) {
      var j :| 0 <= j < |order| && order[j] == k;
      assert Without(order, i)[if j < i then j else j - 1] == k;
    }
  }

  /** Any key of the order can be added last. */
  lemma {:induction false} AddLast(data: Data, count: map<RawKey, nat>, order: seq<RawKey>, i: nat)
    requires i < |order|
    ensures Flush(data, count, order) == Add(Flush(data, count, Without(order, i)), order[i], Times(count, order[i]))
  {
    var n := |order| - 1;
    WithoutSlices(order, i);
    if i != n {
      AddLast(data, count, order[..n], i);
      AddsCommute(Flush(data, count, Without(order[..n], i)), order[i], Times(count, order[i]), order[n],
        Times(count, order[n]));
    }
  }

  lemma {:induction false} FlushReadsItsKeys(data: Data, count: map<RawKey, nat>, other: map<RawKey, nat>,
                                             order: seq<RawKey>)
    requires forall k :: k in order ==> Times(count, k) == Times(other, k)
    ensures Flush(data, count, order) == Flush(data, other, order)
  {
    if order != [] {
      FlushReadsItsKeys(data, count, other, order[..|order| - 1]);
    }
  }

  lemma FlushMore(data: Data, count: map<RawKey, nat>, order: seq<RawKey>, i: nat)
    requires i < |order| && Distinct(order)
    ensures Flush(data, Increment(count, order[i]), order)
      == Add(Flush(data, count, Without(order, i)), order[i], Times(count, order[i]) + 1)
  {
    AddLast(data, Increment(count, order[i]), order, i);
    WithoutKeepsTheRest(order, i);
    FlushReadsItsKeys(data, Increment(count, order[i]), count, Without(order, i));
  }

  lemma FlushMoreOfAKey(data: Data, count: map<RawKey, nat>, order: seq<RawKey>, i: nat)
    requires i < |order| && Distinct(order)
    ensures var more := Flush(data, Increment(count, order[i]), order);
      && (order[i] in count ==> more == Add(Flush(data, count, order), order[i], 1))
      && (order[i] !in count ==> more == Add(Flush(data, count, Without(order, i)), order[i], 1))
  {
    FlushMore(data, count, order, i);
    AddLast(data, count, order, i);
    AddsAccumulate(Flush(data, count, Without(order, i)), order[i], Times(count, order[i]), 1);
  }

  lemma OrderBefore(count: map<RawKey, nat>, order: seq<RawKey>, i: nat)
    requires i < |order| && IsOrderOf(order, Increment(count, order[i]))
    ensures IsOrderOf(if order[i] in count then order else Without(order, i), count)
  {
    WithoutKeepsTheRest(order, i);
    forall k | k in count ensures k in order {
      assert k in Increment(count, order[i]);
    }
  }

  /** One more occurrence of a key is one more addition, whatever the orders of the flushes. */
  lemma FlushOneMore(data: Data, count: map<RawKey, nat>, key: RawKey, order: seq<RawKey>) returns (before: seq<RawKey>)
    requires IsOrderOf(order, Increment(count, key))
    ensures IsOrderOf(before, count)
    ensures Flush(data, Increment(count, key), order) == Add(Flush(data, count, before), key, 1)
  {
    assert key in Increment(count, key);
    var i :| 0 <= i < |order| && order[i] == key;
    before := if key in count then order else Without(order, i);
    FlushMoreOfAKey(data, count, order, i);
    OrderBefore(count, order, i);
  }

  /** Flushing a tally in any order is adding its keys one by one. */
  lemma {:induction false} FlushIsAddEach(data: Data, keys: seq<RawKey>, order: seq<RawKey>)
    requires IsOrderOf(order, Tally(keys))
    ensures Flush(data, Tally(keys), order) == AddEach(data, keys)
  {
    if keys == [] {
    } else {
      var n := |keys| - 1;
      var before := FlushOneMore(data, Tally(keys[..n]), keys[n], order);
      FlushIsAddEach(data, keys[..n], before);
    }
  }

  lemma {:induction false} AddEachConcat(data: Data, a: seq<RawKey>, b: seq<RawKey>)
    ensures AddEach(data, a + b) == AddEach(AddEach(data, a), b)
  {
    if b == [] {
      assert a + b == a;
    } else {
      assert (a + b)[..|a + b| - 1] == a + b[..|b| - 1];
      AddEachConcat(data, a, b[..|b| - 1]);
    }
  }

  lemma AddBesidePut(data: Data, key: RawKey, put: Data)
    requires Clean(key) !in put
    ensures Add(data + put, key, 1) == Add(data, key, 1) + put
  {
    var k := Clean(key);
    var x := ToBytes(Value(data, k) + 1);
    assert Value(data + put, k) == Value(data, k);
    PutBeside(data, put, k, x);
  }

  lemma PutBeside<K, V>(data: map<K, V>, put: map<K, V>, k: K, x: V)
    requires k !in put
    ensures (data + put)[k := x] == data[k := x] + put
  {
  }

  /** Counters do not touch a key that none of them cleans to. */
  lemma {:induction false} PutCommutes(data: Data, keys: seq<RawKey>, put: Data)
    requires forall k :: k in keys ==> Clean(k) !in put
    ensures AddEach(data + put, keys) == AddEach(data, keys) + put
  {
    if keys != [] {
      var init, last := keys[..|keys| - 1], keys[|keys| - 1];
      assert last in keys;
      PutCommutes(data, init, put);
      AddBesidePut(AddEach(data, init), last, put);
    }
  }

  lemma {:induction false} RecentKeysAreRecent(events: seq<CountedEvent>, k: RawKey)
    requires k in Recent(events)
    ensures exists c: uint64 :: k == RecentEventKey(c)
  {
    if k != RecentEventKey(events[|events| - 1].cycle) {
      RecentKeysAreRecent(events[..|events| - 1], k);
    }
  }

  lemma RecentKeysAreClean(events: seq<CountedEvent>)
    ensures forall k :: k in Recent(events) ==> Clean(k) == k
  {
    forall k | k in Recent(events) ensures Clean(k) == k {
      RecentKeysAreRecent(events, k);
      var c: uint64 :| k == RecentEventKey(c);
      CleanTimes(0, c);
    }
  }

  /** The recent-event entries as stored. */
  function Stored(recent: map<RawKey, string>, idBytes: string -> seq<byte>): Data {
    map k | k in recent :: idBytes(recent[k])
  }

  lemma NoCounterIsRecent(events: seq<CountedEvent>, e: CountedEvent, idBytes: string -> seq<byte>)
    ensures forall k :: k in CounterKeys(e) ==> Clean(k) !in Stored(Recent(events), idBytes)
  {
    forall k | k in CounterKeys(e) ensures Clean(k) !in Stored(Recent(events), idBytes) {
      if Clean(k) in Recent(events) {
        RecentKeysAreRecent(events, Clean(k));
        var c: uint64 :| Clean(k) == RecentEventKey(c);
        CleanTimes(0, c);
        RecentIsNoCounter(c, e, k);
      }
    }
  }

  /** Counting an event beside stored entries that none of its counters touches. */
  lemma CountOneBeside(data: Data, put: Data, e: CountedEvent, idBytes: string -> seq<byte>)
    requires forall k :: k in CounterKeys(e) ==> Clean(k) !in put
    ensures CountOne(data + put, e, idBytes) ==
      AddEach(data, CounterKeys(e)) + put[RecentEventKey(e.cycle) := idBytes(e.id)]
  {
    PutCommutes(data, CounterKeys(e), put);
    CleanTimes(0, e.cycle);
    PutLast(AddEach(data, CounterKeys(e)), put, RecentEventKey(e.cycle), idBytes(e.id));
  }

  lemma AllKeysLast(data: Data, init: seq<CountedEvent>, e: CountedEvent)
    ensures AddEach(data, AllKeys(init + [e])) == AddEach(AddEach(data, AllKeys(init)), CounterKeys(e))
  {
    assert (init + [e])[..|init|] == init;
    AddEachConcat(data, AllKeys(init), CounterKeys(e));
  }

  lemma StoredLast(init: seq<CountedEvent>, e: CountedEvent, idBytes: string -> seq<byte>)
    ensures Stored(Recent(init + [e]), idBytes) ==
      Stored(Recent(init), idBytes)[RecentEventKey(e.cycle) := idBytes(e.id)]
  {
    assert (init + [e])[..|init|] == init;
  }

  lemma PutLast(data: Data, put: Data, k: RawKey, v: seq<byte>)
    ensures (data + put)[k := v] == data + put[k := v]
  {
  }

  /** One event at a time is all counters first and then the last event of each cycle. */
  lemma {:induction false} CountAllSplits(data: Data, events: seq<CountedEvent>, idBytes: string -> seq<byte>)
    ensures CountAll(data, events, idBytes) == PutRecent(AddEach(data, AllKeys(events)), Recent(events), idBytes)
  {
    if events == [] {
      assert Stored(map[], idBytes) == map[];
    } else {
      var init, e := events[..|events| - 1], events[|events| - 1];
      assert events == init + [e];
      CountAllSplits(data, init, idBytes);
      NoCounterIsRecent(init, e, idBytes);
      CountOneBeside(AddEach(data, AllKeys(init)), Stored(Recent(init), idBytes), e, idBytes);
      AllKeysLast(data, init, e);
      StoredLast(init, e, idBytes);
    }
  }

  /** Flushing a window in any order leaves what counting its events one at a time leaves. */
  lemma WindowRefinesSequence(data: Data, window: seq<CountedEvent>, order: seq<RawKey>, idBytes: string -> seq<byte>)
    requires IsOrderOf(order, Tally(AllKeys(window)))
    ensures PutRecent(Flush(data, Tally(AllKeys(window)), order), Recent(window), idBytes) ==
      CountAll(data, window, idBytes)
  {
    FlushIsAddEach(data, AllKeys(window), order);
    CountAllSplits(data, window, idBytes);
  }

  lemma {:induction false} CountAllConcat(data: Data, a: seq<CountedEvent>, b: seq<CountedEvent>,
                                          idBytes: string -> seq<byte>)
    ensures CountAll(data, a + b, idBytes) == CountAll(CountAll(data, a, idBytes), b, idBytes)
  {
    if b == [] {
      assert a + b == a;
    } else {
      assert (a + b)[..|a + b| - 1] == a + b[..|b| - 1];
      CountAllConcat(data, a, b[..|b| - 1], idBytes);
    }
  }

  // ---------------------------------------------------------------------------------------------
  // The code.

  function Occurrences(keys: seq<RawKey>, k: RawKey): nat {
    if keys == [] then 0 else Occurrences(keys[..|keys| - 1], k) + if keys[|keys| - 1] == k then 1 else 0
  }

  lemma {:induction false} TallyCounts(keys: seq<RawKey>, k: RawKey)
    ensures Occurrences(keys, k) == Times(Tally(keys), k)
  {
    if keys != [] {
      TallyCounts(keys[..|keys| - 1], k);
    }
  }

  lemma {:induction false} OccurrencesConcat(a: seq<RawKey>, b: seq<RawKey>, k: RawKey)
    ensures Occurrences(a + b, k) == Occurrences(a, k) + Occurrences(b, k)
  {
    if b == [] {
      assert a + b == a;
    } else {
      assert (a + b)[..|a + b| - 1] == a + b[..|b| - 1];
      OccurrencesConcat(a, b[..|b| - 1], k);
    }
  }

  lemma {:induction false} DistinctOccurOnce(keys: seq<RawKey>, k: RawKey)
    requires Distinct(keys)
    ensures Occurrences(keys, k) <= 1 && (k !in keys ==> Occurrences(keys, k) == 0)
  {
    if keys != [] {
      DistinctOccurOnce(keys[..|keys| - 1], k);
      assert keys[|keys| - 1] !in keys[..|keys| - 1];
    }
  }

  /** A key occurs at most once among the counters of an event. */
  lemma CountersAreDistinct(e: CountedEvent)
    ensures Distinct(CounterKeys(e))
  {
    PaddedIsNoModel(e.epoch, e.Model());
    assert CounterKeys(e)[4][1] != CounterKeys(e)[7][1];
  }

  /** So no counter of a window exceeds its number of events. */
  lemma {:induction false} WindowBound(events: seq<CountedEvent>, k: RawKey)
    ensures Occurrences(AllKeys(events), k) <= |events|
  {
    if events != [] {
      var init, e := events[..|events| - 1], events[|events| - 1];
      WindowBound(init, k);
      OccurrencesConcat(AllKeys(init), CounterKeys(e), k);
      CountersAreDistinct(e);
      DistinctOccurOnce(CounterKeys(e), k);
    }
  }

  lemma NextTally(before: seq<RawKey>, keys: seq<RawKey>, i: nat)
    requires i < |keys| && Distinct(keys)
    ensures Times(Tally(before + keys[..i]), keys[i]) == Occurrences(before, keys[i])
  {
    TallyCounts(before + keys[..i], keys[i]);
    OccurrencesConcat(before, keys[..i], keys[i]);
    assert keys[i] !in keys[..i];
    DistinctOccurOnce(keys[..i], keys[i]);
  }

  class NetworkStatsStore {
    var data: Data

    constructor ()
      ensures data == map[]
    {
      data := map[];
    }

    method IncrementCounterByKey(key: RawKey, delta: uint64)
      modifies this
      ensures data == Add(old(data), key, delta)
    {
      var count := delta;
      if Clean(key) in data {
        count := FromBytes(data[Clean(key)]) + delta;
      }
      data := data[Clean(key) := ToBytes(count)];
    }

    method IncrementCounters(cycle: uint64, validator: string, subnet: string)
      modifies this
      ensures data == AddEach(old(data), NetworkCounters(cycle, validator, subnet))
    {
      var keys := [NetworkCounterKey("")];
      keys := keys + [CycleCounterKey(cycle, validator)];
      if |subnet| > 0 {
        keys := keys + [NetworkCounterKey(subnet)];
      } else {
        keys := keys + [CycleSubnetKey(cycle, subnet)];
      }
      assert keys == NetworkCounters(cycle, validator, subnet);
      IncrementEach(keys);
    }

    /** The loop of IncrementCounters. */
    method IncrementEach(keys: seq<RawKey>)
      modifies this
      ensures data == AddEach(old(data), keys)
    {
      for i := 0 to |keys|
        invariant data == AddEach(old(data), keys[..i])
      {
        assert keys[..i + 1][..i] == keys[..i];
        var count := 1;
        if Clean(keys[i]) in data {
          count := FromBytes(data[Clean(keys[i])]) + 1;
        }
        data := data[Clean(keys[i]) := ToBytes(count)];
      }
      assert keys[..|keys|] == keys;
    }

    method IncrementStats(e: CountedEvent, idBytes: string -> seq<byte>)
      modifies this
      ensures data == AddEach(old(data), StatsCounters(e))[Clean(RecentEventKey(e.cycle)) := idBytes(e.id)]
    {
      IncrementEachAndPut(StatsCounters(e), GetBlockStatsKeys(e), RecentEventKey(e.cycle), idBytes(e.id));
    }

    /** The loop of IncrementStats: the recent-event key is put, every other key counted. */
    method IncrementEachAndPut(ghost counters: seq<RawKey>, keys: seq<RawKey>, recent: RawKey, id: seq<byte>)
      requires keys == counters + [recent] && recent !in counters
      modifies this
      ensures data == AddEach(old(data), counters)[Clean(recent) := id]
    {
      for i := 0 to |keys|
        invariant i <= |counters| ==> data == AddEach(old(data), counters[..i])
        invariant i == |keys| ==> data == AddEach(old(data), counters)[Clean(recent) := id]
      {
        if keys[i] == recent {
          assert counters[..i] == counters;
          data := data[Clean(keys[i]) := id];
          continue;
        }
        assert counters[..i + 1][..i] == counters[..i];
        var count := 1;
        if Clean(keys[i]) in data {
          count := FromBytes(data[Clean(keys[i])]) + 1;
        }
        data := data[Clean(keys[i]) := ToBytes(count)];
      }
    }

    /** One event through both. */
    method Count(e: CountedEvent, idBytes: string -> seq<byte>)
      modifies this
      ensures data == CountOne(old(data), e, idBytes)
    {
      IncrementCounters(e.cycle, e.validator, e.Subnet());
      IncrementStats(e, idBytes);
      AddEachConcat(old(data), NetworkCounters(e.cycle, e.validator, e.Subnet()), StatsCounters(e));
    }

    /** The counting goroutine on the events of one window: tally, then flush both maps in any order. */
    method CountWindow(events: seq<CountedEvent>, idBytes: string -> seq<byte>)
      requires |events| < 0x1_0000_0000_0000_0000
      modifies this
      ensures data == CountAll(old(data), events, idBytes)
    {
      var count, cycleEvent := TallyWindow(events);
      ghost var order := FlushCounts(count);
      WindowRefinesSequence(old(data), events, order, idBytes);
      FlushRecent(cycleEvent, idBytes);
    }

    /** The counting goroutine over its windows: any cut of the events leaves what counting them one by one leaves. */
    method CountWindows(windows: seq<seq<CountedEvent>>, idBytes: string -> seq<byte>)
      requires forall w :: w in windows ==> |w| < 0x1_0000_0000_0000_0000
      modifies this
      ensures data == CountAll(old(data), Flatten(windows), idBytes)
    {
      for i := 0 to |windows|
        invariant data == CountAll(old(data), Flatten(windows[..i]), idBytes)
      {
        if windows[i] != [] {
          CountWindow(windows[i], idBytes);
        }
        CountAllConcat(old(data), Flatten(windows[..i]), windows[i], idBytes);
        assert windows[..i + 1][..i] == windows[..i];
      }
      assert windows[..|windows|] == windows;
    }

    method FlushCounts(count: map<RawKey, uint64>) returns (ghost order: seq<RawKey>)
      requires forall k :: k in count ==> count[k] > 0
      modifies this
      ensures IsOrderOf(order, count) && data == Flush(old(data), count, order)
    {
      order := [];
      var rest := count.Keys;
      while rest != {}
        invariant rest <= count.Keys && (forall k :: k in order <==> k in count && k !in rest)
        invariant Distinct(order)
        invariant data == Flush(old(data), count, order)
      {
        var k :| k in rest;
        rest := rest - {k};
        assert (order + [k])[..|order|] == order;
        order := order + [k];
        if count[k] > 0 {
          IncrementCounterByKey(k, count[k]);
        }
      }
    }

    method FlushRecent(cycleEvent: map<RawKey, string>, idBytes: string -> seq<byte>)
      requires forall k :: k in cycleEvent ==> Clean(k) == k
      modifies this
      ensures data == PutRecent(old(data), cycleEvent, idBytes)
    {
      var rest := cycleEvent.Keys;
      while rest != {}
        invariant rest <= cycleEvent.Keys
        invariant data == old(data) + map k | k in cycleEvent && k !in rest :: idBytes(cycleEvent[k])
      {
        var k :| k in rest;
        rest := rest - {k};
        data := data[Clean(k) := idBytes(cycleEvent[k])];
      }
    }
  }

  /** The maps of one window; the uint64 counts do not wrap. */
  lemma NextInWindow(events: seq<CountedEvent>, n: nat)
    requires n < |events|
    ensures AllKeys(events[..n + 1]) == AllKeys(events[..n]) + CounterKeys(events[n])
    ensures Recent(events[..n + 1]) == Recent(events[..n])[RecentEventKey(events[n].cycle) := events[n].id]
  {
    assert events[..n + 1][..n] == events[..n];
  }

  method TallyWindow(events: seq<CountedEvent>) returns (count: map<RawKey, uint64>, cycleEvent: map<RawKey, string>)
    requires |events| < 0x1_0000_0000_0000_0000
    ensures count == Tally(AllKeys(events)) && cycleEvent == Recent(events)
    ensures forall k :: k in count ==> count[k] > 0
    ensures forall k :: k in cycleEvent ==> Clean(k) == k
  {
    count, cycleEvent := map[], map[];
    for n := 0 to |events|
      invariant count == Tally(AllKeys(events[..n])) && cycleEvent == Recent(events[..n])
      invariant forall k :: k in count ==> count[k] > 0
    {
      var e := events[n];
      NextInWindow(events, n);
      count := TallyEvent(events[..n], e, count);
      cycleEvent := cycleEvent[RecentEventKey(e.cycle) := e.id];
    }
    assert events[..|events|] == events;
    RecentKeysAreClean(events);
  }

  method TallyEvent(ghost init: seq<CountedEvent>, e: CountedEvent, count: map<RawKey, uint64>)
    returns (more: map<RawKey, uint64>)
    requires |init| + 1 < 0x1_0000_0000_0000_0000 && count == Tally(AllKeys(init))
    requires forall k :: k in count ==> count[k] > 0
    ensures more == Tally(AllKeys(init) + CounterKeys(e))
    ensures forall k :: k in more ==> more[k] > 0
  {
    CountersAreDistinct(e);
    forall i: nat | i < |CounterKeys(e)| ensures NextFits(AllKeys(init), CounterKeys(e), i) {
      NextTally(AllKeys(init), CounterKeys(e), i);
      WindowBound(init, CounterKeys(e)[i]);
    }
    more := TallyKeys(AllKeys(init), CounterKeys(e), count);
  }

  ghost predicate NextFits(before: seq<RawKey>, keys: seq<RawKey>, i: nat)
    requires i < |keys|
  {
    Times(Tally(before + keys[..i]), keys[i]) + 1 < 0x1_0000_0000_0000_0000
  }

  /** count[key]++ on uint64 counts. */
  method CountUp(count: map<RawKey, uint64>, key: RawKey) returns (more: map<RawKey, uint64>)
    requires Times(count, key) + 1 < 0x1_0000_0000_0000_0000
    requires forall k :: k in count ==> count[k] > 0
    ensures more == Increment(count, key)
    ensures forall k :: k in more ==> more[k] > 0
  {
    var c := if key in count then count[key] else 0;
    more := count[key := (c + 1) % 0x1_0000_0000_0000_0000];
  }

  method TallyKeys(ghost before: seq<RawKey>, keys: seq<RawKey>, count: map<RawKey, uint64>)
    returns (more: map<RawKey, uint64>)
    requires count == Tally(before) && forall k :: k in count ==> count[k] > 0
    requires forall i: nat :: i < |keys| ==> NextFits(before, keys, i)
    ensures more == Tally(before + keys)
    ensures forall k :: k in more ==> more[k] > 0
  {
    more := count;
    assert before + keys[..0] == before;
    for i := 0 to |keys|
      invariant more == Tally(before + keys[..i])
      invariant forall k :: k in more ==> more[k] > 0
    {
      assert NextFits(before, keys, i);
      TallyNext(before, keys, i);
      more := CountUp(more, keys[i]);
    }
    assert keys[..|keys|] == keys;
  }

  lemma TallyNext(before: seq<RawKey>, keys: seq<RawKey>, i: nat)
    requires i < |keys|
    ensures Tally(before + keys[..i + 1]) == Increment(Tally(before + keys[..i]), keys[i])
  {
    var more := before + keys[..i + 1];
    assert more[..|more| - 1] == before + keys[..i];
  }
}
