/** What the statistics counters hold after any run of events, and what GetStats returns. */
module StatsQueries {
  import opened Wrappers
  import opened BigEndian
  import opened Entities
  import opened StatsKeys
  import opened StatsStore

  /** A counter by what it is meant to count. */
  datatype Counter =
    | Total
    | Network
    | OfSubnet(subnet: string)
    | OfModel(model: Model)
    | OfBlock(block: uint64)
    | OfBlockModel(inBlock: uint64, ofModel: Model)
    | OfEpoch(epoch: uint64)
    | OfCycle(cycle: uint64)
    | OfValidator(inCycle: uint64, validator: string)
    | WithoutSubnet(ofCycle: uint64)

  /** Where the counter is stored. */
  function Key(c: Counter): RawKey {
    match c
    case Total => ["e"]
    case Network => ["net"]
    case OfSubnet(s) => ["net", s]
    case OfModel(m) => ["e", ModelName(m)]
    case OfBlock(b) => ["b", Padded(b)]
    case OfBlockModel(b, m) => ["b", Padded(b), ModelName(m)]
    case OfEpoch(p) => ["e", Padded(p)]
    case OfCycle(y) => ["c", Padded(y)]
    case OfValidator(y, v) => if v == "" then ["cy", Padded(y), "0"] else ["cy", Padded(y), v, "0"]
    case WithoutSubnet(y) => ["cyc", Padded(y)]
  }

  /** The counters that have a name of their own. */
  predicate Named(c: Counter) {
    && (c.OfSubnet? ==> c.subnet != "")
    && (c.OfModel? ==> c.model != NoModel)
    && (c.OfBlockModel? ==> c.ofModel != NoModel)
  }

  /** The types of a model's events. */
  predicate IsOf(eventType: uint16, m: Model) {
    match m
    case SubnetModel => eventType < 600
    case AuthModel => 600 <= eventType < 700
    case TopicModel => 700 <= eventType < 1100
    case SubscriptionModel => 1100 <= eventType < 1200
    case MessageModel => 1200 <= eventType < 1300
    case WalletModel => 1300 <= eventType < 1500
    case NoModel => 1500 <= eventType
  }

  predicate Concerns(c: Counter, e: CountedEvent) {
    match c
    case Total => true
    case Network => true
    case OfSubnet(s) => if e.subnet == "" then e.payloadSubnet == s else e.subnet == s
    case OfModel(m) => IsOf(e.eventType, m)
    case OfBlock(b) => e.block == b
    case OfBlockModel(b, m) => e.block == b && IsOf(e.eventType, m)
    case OfEpoch(p) => e.epoch == p
    case OfCycle(y) => e.cycle == y
    case OfValidator(y, v) => e.cycle == y && e.validator == v
    case WithoutSubnet(y) => e.cycle == y && e.subnet == "" && e.payloadSubnet == ""
  }

  lemma ModelIs(e: CountedEvent, m: Model)
    ensures e.Model() == m <==> IsOf(e.eventType, m)
  {
  }

  /** An event without a model also counts under "e/" and "b/N/", which are stored as "e" and "b/N". */
  predicate CountsAgain(c: Counter, e: CountedEvent) {
    (c.Total? || c.OfBlock?) && Concerns(c, e) && e.eventType >= 1500
  }

  function One(b: bool): nat {
    if b then 1 else 0
  }

  function Number(events: seq<CountedEvent>, c: Counter): nat {
    if events == [] then 0 else Number(events[..|events| - 1], c) + One(Concerns(c, events[|events| - 1]))
  }

  /** The events without a model among those that the counter concerns. */
  function Untyped(events: seq<CountedEvent>, c: Counter): nat {
    if events == [] then 0
    else
      var last := events[|events| - 1];
      Untyped(events[..|events| - 1], c) + One(Concerns(c, last) && last.eventType >= 1500)
  }

  // ---------------------------------------------------------------------------------------------
  // A stored value is the number of keys that clean to its key.

  function Same(a: RawKey, b: RawKey): nat {
    if a == b then 1 else 0
  }

  function Matching(keys: seq<RawKey>, k: RawKey): nat {
    if keys == [] then 0 else Matching(keys[..|keys| - 1], k) + Same(Clean(keys[|keys| - 1]), k)
  }

  lemma {:induction false} AddEachCounts(data: Data, keys: seq<RawKey>, k: RawKey)
    ensures Value(AddEach(data, keys), k) == Value(data, k) + Matching(keys, k)
  {
    if keys != [] {
      var before, last := AddEach(data, keys[..|keys| - 1]), keys[|keys| - 1];
      AddEachCounts(data, keys[..|keys| - 1], k);
      ValueAdded(before, last, 1);
    }
  }

  lemma CountOneCounts(data: Data, e: CountedEvent, idBytes: string -> seq<byte>, c: Counter)
    ensures Value(CountOne(data, e, idBytes), Key(c)) == Value(data, Key(c)) + Matching(CounterKeys(e), Key(c))
  {
    AddEachCounts(data, CounterKeys(e), Key(c));
    CleanTimes(0, e.cycle);
    assert |Key(c)| == 3 ==> Key(c)[0] == "b" || Key(c)[0] == "cy";
    assert RecentEventKey(e.cycle)[0] == "c";
  }

  lemma Matching3(keys: seq<RawKey>, n: nat, k: RawKey)
    requires n + 3 == |keys|
    ensures Matching(keys, k) ==
      Matching(keys[..n], k) + Same(Clean(keys[n]), k) + Same(Clean(keys[n + 1]), k) + Same(Clean(keys[n + 2]), k)
  {
    assert keys[..n + 2][..n + 1] == keys[..n + 1] && keys[..n + 1][..n] == keys[..n];
    assert Matching(keys[..n + 2], k) == Matching(keys[..n + 1], k) + Same(Clean(keys[n + 1]), k);
  }

  /** The stored keys that an event counts under, one for each counter key. */
  function Cleaned(e: CountedEvent): seq<RawKey> {
    [NETWORK_KEY,
     if e.validator == "" then ["cy", Padded(e.cycle), "0"] else ["cy", Padded(e.cycle), e.validator, "0"],
     if e.Subnet() != "" then ["net", e.Subnet()] else ["cyc", Padded(e.cycle)],
     TOTAL_KEY, if e.Model() == NoModel then TOTAL_KEY else ModelKey(e.Model()),
     if e.Model() == NoModel then BlockKey(e.block) else BlockModelKey(e.block, e.Model()),
     BlockKey(e.block), EpochKey(e.epoch), CycleKey(e.cycle)]
  }

  lemma CleanedStats(e: CountedEvent, i: nat)
    requires i < 6
    ensures Clean(StatsCounters(e)[i]) == Cleaned(e)[i + 3]
  {
    if i < 4 {
      CleanModels(e.block, e.Model());
    } else {
      CleanTimes(e.epoch, e.cycle);
    }
  }

  lemma CleanedKeys(e: CountedEvent, i: nat)
    requires i < 9
    ensures Clean(CounterKeys(e)[i]) == Cleaned(e)[i]
  {
    if i < 3 {
      assert CounterKeys(e)[i] == NetworkCounters(e.cycle, e.validator, e.Subnet())[i];
      CleanNetwork(e.cycle, e.Subnet());
      CleanCycleCounter(e.cycle, e.validator);
    } else {
      assert CounterKeys(e)[i] == StatsCounters(e)[i - 3];
      CleanedStats(e, i - 3);
    }
  }

  /** How often k occurs in a list of nine. */
  function Among(ks: seq<RawKey>, k: RawKey): nat
    requires |ks| == 9
  {
    Same(ks[0], k) + Same(ks[1], k) + Same(ks[2], k) + Same(ks[3], k) + Same(ks[4], k) +
    Same(ks[5], k) + Same(ks[6], k) + Same(ks[7], k) + Same(ks[8], k)
  }

  lemma Matching9(keys: seq<RawKey>, cleaned: seq<RawKey>, k: RawKey)
    requires |keys| == |cleaned| == 9 && forall i :: 0 <= i < 9 ==> Clean(keys[i]) == cleaned[i]
    ensures Matching(keys, k) == Among(cleaned, k)
  {
    Matching3(keys, 6, k);
    Matching3(keys[..6], 3, k);
    Matching3(keys[..3], 0, k);
    assert keys[..6][..3] == keys[..3] && keys[..3][..0] == [];
  }

  lemma CounterKeysMatch(e: CountedEvent, k: RawKey)
    ensures Matching(CounterKeys(e), k) == Among(Cleaned(e), k)
  {
    forall i | 0 <= i < 9 ensures Clean(CounterKeys(e)[i]) == Cleaned(e)[i] {
      CleanedKeys(e, i);
    }
    Matching9(CounterKeys(e), Cleaned(e), k);
  }

  lemma ModelNames(m: Model, n: Model)
    ensures ModelName(m) == ModelName(n) ==> m == n
  {
    var names := ["", "auth", "top", "sub", "msg", "snet", "wal"];
    assert ModelName(m) != [] ==> ModelName(m)[0] in "atsmw";
  }

  lemma EventHits(e: CountedEvent, c: Counter)
    requires Named(c)
    ensures Among(Cleaned(e), Key(c)) == One(Concerns(c, e)) + One(CountsAgain(c, e))
  {
    var m := e.Model();
    ModelIs(e, NoModel);
    PaddedIsNoModel(e.epoch, m);
    match c
    case OfModel(n) => { ModelNames(m, n); PaddedIsNoModel(e.epoch, n); ModelIs(e, n); }
    case OfBlockModel(b, n) => { ModelNames(m, n); PaddedIsInjective(b, e.block); ModelIs(e, n); }
    case OfBlock(b) => PaddedIsInjective(b, e.block);
    case OfEpoch(p) => { PaddedIsInjective(p, e.epoch); PaddedIsNoModel(p, m); }
    case OfCycle(y) => PaddedIsInjective(y, e.cycle);
    case OfValidator(y, _) => PaddedIsInjective(y, e.cycle);
    case WithoutSubnet(y) => PaddedIsInjective(y, e.cycle);
    case _ =>
  }

  /** From an empty store a counter holds the events it concerns, those that count again twice. */
  lemma {:induction false} CounterIsNumber(events: seq<CountedEvent>, idBytes: string -> seq<byte>, c: Counter)
    requires Named(c)
    ensures Value(CountAll(map[], events, idBytes), Key(c))
      == Number(events, c) + if c.Total? || c.OfBlock? then Untyped(events, c) else 0
  {
    if events != [] {
      var init, e := events[..|events| - 1], events[|events| - 1];
      CounterIsNumber(init, idBytes, c);
      CountOneCounts(CountAll(map[], init, idBytes), e, idBytes, c);
      CounterKeysMatch(e, Key(c));
      EventHits(e, c);
    }
  }

  // ---------------------------------------------------------------------------------------------
  // Conservation across families of counters.

  function NumberIn(events: seq<CountedEvent>, cs: seq<Counter>): nat {
    if cs == [] then 0 else NumberIn(events, cs[..|cs| - 1]) + Number(events, cs[|cs| - 1])
  }

  function UntypedIn(events: seq<CountedEvent>, cs: seq<Counter>): nat {
    if cs == [] then 0 else UntypedIn(events, cs[..|cs| - 1]) + Untyped(events, cs[|cs| - 1])
  }

  /** The sum of the stored values of a list of counters. */
  function StoredIn(data: Data, cs: seq<Counter>): nat {
    if cs == [] then 0 else StoredIn(data, cs[..|cs| - 1]) + Value(data, Key(cs[|cs| - 1]))
  }

  function Concerned(cs: seq<Counter>, e: CountedEvent): nat {
    if cs == [] then 0 else Concerned(cs[..|cs| - 1], e) + One(Concerns(cs[|cs| - 1], e))
  }

  lemma {:induction false} OneMoreEvent(init: seq<CountedEvent>, e: CountedEvent, cs: seq<Counter>)
    ensures NumberIn(init + [e], cs) == NumberIn(init, cs) + Concerned(cs, e)
    ensures UntypedIn(init + [e], cs) == UntypedIn(init, cs) + if e.eventType >= 1500 then Concerned(cs, e) else 0
  {
    assert (init + [e])[..|init|] == init;
    if cs != [] {
      OneMoreEvent(init, e, cs[..|cs| - 1]);
    }
  }

  lemma {:induction false} NothingIn(cs: seq<Counter>)
    ensures NumberIn([], cs) == 0 && UntypedIn([], cs) == 0
  {
    if cs != [] {
      NothingIn(cs[..|cs| - 1]);
    }
  }

  /** An event that c concerns (with a model, if `typed`) is the business of one of the counters, any other of none. */
  predicate Refine(cs: seq<Counter>, c: Counter, typed: bool, e: CountedEvent) {
    Concerned(cs, e) == One(Concerns(c, e) && (typed ==> e.eventType < 1500))
  }

  lemma {:induction false} RefinementConserves(events: seq<CountedEvent>, cs: seq<Counter>, c: Counter, typed: bool)
    requires forall e :: e in events ==> Refine(cs, c, typed, e)
    ensures NumberIn(events, cs) == Number(events, c) - if typed then Untyped(events, c) else 0
    ensures UntypedIn(events, cs) == if typed then 0 else Untyped(events, c)
  {
    if events == [] {
      NothingIn(cs);
    } else {
      var init, e := events[..|events| - 1], events[|events| - 1];
      assert events == init + [e] && e in events;
      RefinementConserves(init, cs, c, typed);
      OneMoreEvent(init, e, cs);
    }
  }

  predicate Exclusive(cs: seq<Counter>, e: CountedEvent) {
    forall i, j :: 0 <= i < j < |cs| && Concerns(cs[i], e) ==> !Concerns(cs[j], e)
  }

  lemma {:induction false} ConcernedOnce(cs: seq<Counter>, e: CountedEvent)
    requires Exclusive(cs, e)
    ensures Concerned(cs, e) == One(exists i :: 0 <= i < |cs| && Concerns(cs[i], e))
  {
    if cs != [] {
      ConcernedOnce(cs[..|cs| - 1], e);
      if Concerned(cs[..|cs| - 1], e) == 1 {
        var i :| 0 <= i < |cs| - 1 && Concerns(cs[..|cs| - 1][i], e);
        assert Concerns(cs[i], e);
      }
    }
  }

  predicate AreBlocks(cs: seq<Counter>, events: seq<CountedEvent>) {
    Distinct(cs) && (forall c :: c in cs ==> c.OfBlock?) && (forall e :: e in events ==> OfBlock(e.block) in cs)
  }

  predicate AreEpochs(cs: seq<Counter>, events: seq<CountedEvent>) {
    Distinct(cs) && (forall c :: c in cs ==> c.OfEpoch?) && (forall e :: e in events ==> OfEpoch(e.epoch) in cs)
  }

  predicate AreCycles(cs: seq<Counter>, events: seq<CountedEvent>) {
    Distinct(cs) && (forall c :: c in cs ==> c.OfCycle?) && (forall e :: e in events ==> OfCycle(e.cycle) in cs)
  }

  lemma TimesRefineTotal(cs: seq<Counter>, e: CountedEvent)
    requires Distinct(cs)
    requires ((forall c :: c in cs ==> c.OfBlock?) && OfBlock(e.block) in cs)
      || ((forall c :: c in cs ==> c.OfEpoch?) && OfEpoch(e.epoch) in cs)
      || ((forall c :: c in cs ==> c.OfCycle?) && OfCycle(e.cycle) in cs)
    ensures Refine(cs, Total, false, e)
  {
    var own :=
      if OfBlock(e.block) in cs then OfBlock(e.block)
      else if OfEpoch(e.epoch) in cs then OfEpoch(e.epoch)
      else OfCycle(e.cycle);
    forall c | c in cs ensures Concerns(c, e) <==> c == own {
    }
    ConcernedOnce(cs, e);
    var i :| 0 <= i < |cs| && cs[i] == own;
    assert Concerns(cs[i], e);
  }

  const MODELS := [AuthModel, TopicModel, SubscriptionModel, MessageModel, SubnetModel, WalletModel]

  function PerModel(): seq<Counter> {
    seq(6, i requires 0 <= i < 6 => OfModel(MODELS[i]))
  }

  function PerModelOf(block: uint64): seq<Counter> {
    seq(6, i requires 0 <= i < 6 => OfBlockModel(block, MODELS[i]))
  }

  lemma PerModelAreNamed(block: uint64)
    ensures forall c :: c in PerModel() + PerModelOf(block) ==> Named(c) && (c.OfModel? || c.OfBlockModel?)
  {
  }

  /** Where the model of a typed event is listed. */
  lemma ModelIndex(e: CountedEvent) returns (i: nat)
    requires e.eventType < 1500
    ensures i < 6 && IsOf(e.eventType, MODELS[i])
  {
    i := if e.eventType < 600 then 4 else if e.eventType < 700 then 0 else if e.eventType < 1100 then 1
      else if e.eventType < 1200 then 2 else if e.eventType < 1300 then 3 else 5;
  }

  lemma ModelsRefineTotal(e: CountedEvent)
    ensures Refine(PerModel(), Total, true, e)
  {
    if e.eventType < 1500 {
      var i := ModelIndex(e);
      assert Concerns(PerModel()[i], e);
    }
    ConcernedOnce(PerModel(), e);
  }

  lemma ModelsRefineBlock(block: uint64, e: CountedEvent)
    ensures Refine(PerModelOf(block), OfBlock(block), true, e)
  {
    if e.eventType < 1500 && e.block == block {
      var i := ModelIndex(e);
      assert Concerns(PerModelOf(block)[i], e);
    }
    ConcernedOnce(PerModelOf(block), e);
  }

  lemma {:induction false} StoredAreNumbers(events: seq<CountedEvent>, idBytes: string -> seq<byte>, cs: seq<Counter>,
                                            blocks: bool)
    requires forall c :: c in cs ==> Named(c) && !c.Total? && c.OfBlock? == blocks
    ensures StoredIn(CountAll(map[], events, idBytes), cs) ==
      NumberIn(events, cs) + if blocks then UntypedIn(events, cs) else 0
  {
    if cs != [] {
      StoredAreNumbers(events, idBytes, cs[..|cs| - 1], blocks);
      CounterIsNumber(events, idBytes, cs[|cs| - 1]);
    }
  }

  lemma {:induction false} AllConcerned(events: seq<CountedEvent>, c: Counter)
    requires c.Total? || c.Network?
    ensures Number(events, c) == |events|
  {
    if events != [] {
      AllConcerned(events[..|events| - 1], c);
    }
  }

  lemma TotalsHold(events: seq<CountedEvent>, idBytes: string -> seq<byte>)
    ensures var data := CountAll(map[], events, idBytes);
      Value(data, Key(Network)) == |events| && Value(data, Key(Total)) == |events| + Untyped(events, Total)
  {
    AllConcerned(events, Total);
    AllConcerned(events, Network);
    CounterIsNumber(events, idBytes, Network);
    CounterIsNumber(events, idBytes, Total);
  }

  lemma TimesHold(events: seq<CountedEvent>, idBytes: string -> seq<byte>, cs: seq<Counter>, blocks: bool)
    requires if blocks then AreBlocks(cs, events) else AreEpochs(cs, events) || AreCycles(cs, events)
    ensures StoredIn(CountAll(map[], events, idBytes), cs) == |events| + if blocks then Untyped(events, Total) else 0
  {
    forall e | e in events ensures Refine(cs, Total, false, e) {
      TimesRefineTotal(cs, e);
    }
    AllConcerned(events, Total);
    RefinementConserves(events, cs, Total, false);
    StoredAreNumbers(events, idBytes, cs, blocks);
  }

  lemma ModelsHold(events: seq<CountedEvent>, idBytes: string -> seq<byte>)
    ensures StoredIn(CountAll(map[], events, idBytes), PerModel()) == |events| - Untyped(events, Total)
  {
    forall e | e in events ensures Refine(PerModel(), Total, true, e) {
      ModelsRefineTotal(e);
    }
    AllConcerned(events, Total);
    RefinementConserves(events, PerModel(), Total, true);
    PerModelAreNamed(0);
    StoredAreNumbers(events, idBytes, PerModel(), false);
  }

  /** The families of counters agree with the number of events up to the events without a model. */
  lemma Conservation(events: seq<CountedEvent>, idBytes: string -> seq<byte>,
                     blocks: seq<Counter>, epochs: seq<Counter>, cycles: seq<Counter>)
    requires AreBlocks(blocks, events) && AreEpochs(epochs, events) && AreCycles(cycles, events)
    ensures var data, untyped := CountAll(map[], events, idBytes), Untyped(events, Total);
      && Value(data, Key(Network)) == StoredIn(data, epochs) == StoredIn(data, cycles) == |events|
      && Value(data, Key(Total)) == StoredIn(data, blocks) == |events| + untyped
      && StoredIn(data, PerModel()) == |events| - untyped
  {
    TotalsHold(events, idBytes);
    ModelsHold(events, idBytes);
    TimesHold(events, idBytes, blocks, true);
    TimesHold(events, idBytes, epochs, false);
    TimesHold(events, idBytes, cycles, false);
  }

  /** A block's counter is the sum of its models' counters, plus two for each of its events without a model. */
  lemma BlockConservation(events: seq<CountedEvent>, idBytes: string -> seq<byte>, block: uint64)
    ensures var data := CountAll(map[], events, idBytes);
      Value(data, Key(OfBlock(block))) == StoredIn(data, PerModelOf(block)) + 2 * Untyped(events, OfBlock(block))
  {
    forall e | e in events ensures Refine(PerModelOf(block), OfBlock(block), true, e) {
      ModelsRefineBlock(block, e);
    }
    CounterIsNumber(events, idBytes, OfBlock(block));
    RefinementConserves(events, PerModelOf(block), OfBlock(block), true);
    PerModelAreNamed(block);
    StoredAreNumbers(events, idBytes, PerModelOf(block), false);
  }

  predicate AreValidators(cs: seq<Counter>, cycle: uint64, events: seq<CountedEvent>) {
    && Distinct(cs) && (forall c :: c in cs ==> c.OfValidator? && c.inCycle == cycle)
    && (forall e :: e in events && e.cycle == cycle ==> OfValidator(cycle, e.validator) in cs)
  }

  /** The counters of a cycle's validators add up to the cycle's. */
  lemma ValidatorConservation(events: seq<CountedEvent>, idBytes: string -> seq<byte>, cycle: uint64, cs: seq<Counter>)
    requires AreValidators(cs, cycle, events)
    ensures var data := CountAll(map[], events, idBytes); StoredIn(data, cs) == Value(data, Key(OfCycle(cycle)))
  {
    forall e | e in events ensures Refine(cs, OfCycle(cycle), false, e) {
      var own := OfValidator(cycle, e.validator);
      forall c | c in cs ensures Concerns(c, e) <==> e.cycle == cycle && c == own {
      }
      assert forall i, j :: 0 <= i < j < |cs| ==> cs[i] in cs && cs[j] in cs;
      ConcernedOnce(cs, e);
      if e.cycle == cycle {
        var i :| 0 <= i < |cs| && cs[i] == own;
        assert Concerns(cs[i], e);
      }
    }
    RefinementConserves(events, cs, OfCycle(cycle), false);
    StoredAreNumbers(events, idBytes, cs, false);
    CounterIsNumber(events, idBytes, OfCycle(cycle));
  }

  /** The counter of the event's subnet, or of its cycle's events without one. */
  function SubnetCounter(e: CountedEvent): Counter {
    if e.subnet != "" then OfSubnet(e.subnet)
    else if e.payloadSubnet != "" then OfSubnet(e.payloadSubnet)
    else WithoutSubnet(e.cycle)
  }

  predicate AreSubnets(cs: seq<Counter>, events: seq<CountedEvent>) {
    && Distinct(cs) && (forall c :: c in cs ==> (c.OfSubnet? && c.subnet != "") || c.WithoutSubnet?)
    && (forall e :: e in events ==> SubnetCounter(e) in cs)
  }

  /** The counters of the subnets, and of the cycles' events without one, add up to the network's. */
  lemma SubnetConservation(events: seq<CountedEvent>, idBytes: string -> seq<byte>, cs: seq<Counter>)
    requires AreSubnets(cs, events)
    ensures var data := CountAll(map[], events, idBytes); StoredIn(data, cs) == Value(data, Key(Network)) == |events|
  {
    forall e | e in events ensures Refine(cs, Network, false, e) {
      forall c | c in cs ensures Concerns(c, e) <==> c == SubnetCounter(e) {
      }
      assert forall i, j :: 0 <= i < j < |cs| ==> cs[i] in cs && cs[j] in cs;
      ConcernedOnce(cs, e);
      var i :| 0 <= i < |cs| && cs[i] == SubnetCounter(e);
      assert Concerns(cs[i], e);
    }
    RefinementConserves(events, cs, Network, false);
    StoredAreNumbers(events, idBytes, cs, false);
    TotalsHold(events, idBytes);
    AllConcerned(events, Network);
  }

  lemma {:induction false} NoneUntyped(events: seq<CountedEvent>, c: Counter)
    ensures Untyped(events, c) == 0 <==> forall e :: e in events && Concerns(c, e) ==> e.eventType < 1500
  {
    if events != [] {
      var init, e := events[..|events| - 1], events[|events| - 1];
      NoneUntyped(init, c);
      assert forall x :: x in events <==> x in init || x == e;
    }
  }

  predicate AllTyped(events: seq<CountedEvent>) {
    forall e :: e in events ==> e.eventType < 1500
  }

  /** So the families agree with each other exactly when every event has a model. */
  lemma ConservedExactly(events: seq<CountedEvent>, idBytes: string -> seq<byte>, blocks: seq<Counter>)
    requires AreBlocks(blocks, events)
    ensures var data := CountAll(map[], events, idBytes);
      && (Value(data, Key(Total)) == Value(data, Key(Network)) <==> AllTyped(events))
      && (StoredIn(data, PerModel()) == Value(data, Key(Total)) <==> AllTyped(events))
      && (StoredIn(data, blocks) == Value(data, Key(Network)) <==> AllTyped(events))
  {
    TotalsHold(events, idBytes);
    ModelsHold(events, idBytes);
    TimesHold(events, idBytes, blocks, true);
    NoneUntyped(events, Total);
    assert AllTyped(events) <==> forall e :: e in events && Concerns(Total, e) ==> e.eventType < 1500;
  }

  // ---------------------------------------------------------------------------------------------
  // GetStats

  datatype BlockStatsQuery = BlockStatsQuery(
    cycle: Option<uint64>, epoch: Option<uint64>, block: Option<uint64>, eventType: Option<Model>)

  /** The events a query is about: the block takes precedence over the cycle and the cycle over the epoch. */
  function Meant(query: BlockStatsQuery): Option<Counter> {
    if query.block.Some? then
      var block := query.block.value;
      Some(if query.eventType.Some? then OfBlockModel(block, query.eventType.value) else OfBlock(block))
    else if query.cycle.Some? then Some(OfCycle(query.cycle.value))
    else if query.epoch.Some? then Some(OfEpoch(query.epoch.value))
    else if query.eventType.Some? then Some(OfModel(query.eventType.value))
    else None
  }

  /** The key built for what is meant: a model alone is looked up under a key of its own. */
  function QueryKey(meant: Counter): RawKey {
    if meant.OfModel? then ["m"] else Key(meant)
  }

  /** The stored key of the counter that is read: of the block's model, the block, the cycle, the epoch, or none. */
  function ReadKey(query: BlockStatsQuery): Option<RawKey> {
    if query.block.Some? then
      var block := Padded(query.block.value);
      Some(if query.eventType.None? || query.eventType == Some(NoModel) then ["b", block]
           else ["b", block, ModelName(query.eventType.value)])
    else if query.cycle.Some? then Some(["c", Padded(query.cycle.value)])
    else if query.epoch.Some? then Some(["e", Padded(query.epoch.value)])
    else if query.eventType.Some? then Some(["m"])
    else None
  }

  lemma MeantIsRead(query: BlockStatsQuery)
    ensures ReadKey(query) == if Meant(query).None? then None else Some(Clean(QueryKey(Meant(query).value)))
  {
    if Meant(query).Some? {
      var meant := Meant(query).value;
      if meant.OfModel? {
        Clean1("m");
      } else {
        ReadsItsKey(meant);
      }
    }
  }

  /** None is a panic. */
  method GetStats(store: NetworkStatsStore, query: BlockStatsQuery) returns (n: Option<uint64>)
    ensures n == if ReadKey(query).None? then None
      else Some(Value(store.data, ReadKey(query).value) % 0x1_0000_0000_0000_0000)
    ensures n == if Meant(query).None? then None
      else Some(Value(store.data, Clean(QueryKey(Meant(query).value))) % 0x1_0000_0000_0000_0000)
  {
    MeantIsRead(query);
    var key;
    if query.block.Some? {
      if query.eventType.Some? {
        key := BlockModelKey(query.block.value, query.eventType.value);
      } else {
        key := BlockKey(query.block.value);
      }
    } else if query.cycle.Some? {
      key := CycleKey(query.cycle.value);
    } else if query.epoch.Some? {
      key := EpochKey(query.epoch.value);
    } else if query.eventType.Some? {
      key := ["m"];
    } else {
      return None;
    }
    if Clean(key) !in store.data {
      return Some(0);
    }
    n := Some(FromBytes(store.data[Clean(key)]) % 0x1_0000_0000_0000_0000);
  }

  /** The counter under the key. */
  function Read(meant: Counter): Counter {
    if meant.OfBlockModel? && meant.ofModel == NoModel then OfBlock(meant.inBlock) else meant
  }

  /** What the answer counts beyond the events that are meant. */
  function Surplus(meant: Counter, events: seq<CountedEvent>): nat {
    match meant
    case OfBlockModel(b, NoModel) => Number(events, OfBlock(b))
    case OfBlock(b) => Untyped(events, meant)
    case _ => 0
  }

  lemma {:induction false} UntypedInBlock(events: seq<CountedEvent>, block: uint64)
    ensures Untyped(events, OfBlock(block)) == Number(events, OfBlockModel(block, NoModel))
  {
    if events != [] {
      UntypedInBlock(events[..|events| - 1], block);
    }
  }

  lemma ReadsItsKey(meant: Counter)
    requires meant.OfBlock? || meant.OfBlockModel? || meant.OfCycle? || meant.OfEpoch?
    ensures Clean(Key(meant)) == Key(Read(meant)) && Named(Read(meant))
  {
    match meant
    case OfBlock(b) => CleanModels(b, NoModel);
    case OfBlockModel(b, m) => CleanModels(b, m);
    case OfCycle(y) => CleanTimes(0, y);
    case OfEpoch(p) => CleanTimes(p, 0);
  }

  /** Every answer but the one by model alone, which is always zero, is the number of events meant and the surplus. */
  lemma AnswersCount(query: BlockStatsQuery, events: seq<CountedEvent>, idBytes: string -> seq<byte>)
    requires Meant(query).Some?
    ensures var meant := Meant(query).value;
      Value(CountAll(map[], events, idBytes), Clean(QueryKey(meant))) ==
      if meant.OfModel? then 0 else Number(events, meant) + Surplus(meant, events)
  {
    var meant := Meant(query).value;
    if meant.OfModel? {
      Clean1("m");
      NothingUnderM(events, idBytes);
    } else {
      ReadsItsKey(meant);
      CounterIsNumber(events, idBytes, Read(meant));
      if meant.OfBlockModel? {
        UntypedInBlock(events, meant.inBlock);
      }
    }
  }

  lemma {:induction false} NothingUnderM(events: seq<CountedEvent>, idBytes: string -> seq<byte>)
    ensures Value(CountAll(map[], events, idBytes), ["m"]) == 0
  {
    if events != [] {
      var init, e := events[..|events| - 1], events[|events| - 1];
      NothingUnderM(init, idBytes);
      AddEachCounts(CountAll(map[], init, idBytes), CounterKeys(e), ["m"]);
      CounterKeysMatch(e, ["m"]);
      CleanCycleCounter(e.cycle, e.validator);
      CleanTimes(0, e.cycle);
    }
  }

  predicate TypedIn(events: seq<CountedEvent>, block: uint64) {
    forall e :: e in events && e.block == block ==> e.eventType < 1500
  }

  /** What a caller can check about the events: no counted event without a model in the way. */
  predicate NoSurplus(meant: Counter, events: seq<CountedEvent>) {
    && (meant.OfModel? ==> Number(events, meant) == 0)
    && (meant.OfBlock? ==> TypedIn(events, meant.block))
    && (meant.OfBlockModel? && meant.ofModel == NoModel ==> Number(events, OfBlock(meant.inBlock)) == 0)
  }

  /** So GetStats reports the number of events meant exactly when there is no surplus. */
  lemma AnswersAreExact(query: BlockStatsQuery, events: seq<CountedEvent>, idBytes: string -> seq<byte>)
    requires Meant(query).Some?
    ensures Value(CountAll(map[], events, idBytes), Clean(QueryKey(Meant(query).value))) ==
      Number(events, Meant(query).value)
      <==> NoSurplus(Meant(query).value, events)
  {
    AnswersCount(query, events, idBytes);
    var meant := Meant(query).value;
    if meant.OfBlock? {
      NoneUntyped(events, meant);
      assert TypedIn(events, meant.block) <==> forall e :: e in events && Concerns(meant, e) ==> e.eventType < 1500;
    }
  }

  /** The last event of the cycle. */
  function LastOf(events: seq<CountedEvent>, cycle: uint64): Option<CountedEvent> {
    if events == [] then None
    else if events[|events| - 1].cycle == cycle then Some(events[|events| - 1])
    else LastOf(events[..|events| - 1], cycle)
  }

  lemma {:induction false} AddEachElsewhere(data: Data, keys: seq<RawKey>, k: RawKey)
    requires forall key :: key in keys ==> Clean(key) != k
    ensures k in AddEach(data, keys) <==> k in data
    ensures k in data ==> AddEach(data, keys)[k] == data[k]
  {
    if keys != [] {
      AddEachElsewhere(data, keys[..|keys| - 1], k);
      assert keys[|keys| - 1] in keys;
    }
  }

  /** The recent-event entry of a cycle names the last event counted in it. */
  lemma {:induction false} RecentIsLast(events: seq<CountedEvent>, idBytes: string -> seq<byte>, cycle: uint64)
    ensures var data, k, last := CountAll(map[], events, idBytes), ["c", Padded(cycle), "e"], LastOf(events, cycle);
      (k in data <==> last.Some?) && (k in data ==> data[k] == idBytes(last.value.id))
  {
    if events != [] {
      var init, e := events[..|events| - 1], events[|events| - 1];
      RecentIsLast(init, idBytes, cycle);
      CleanTimes(0, cycle);
      CleanTimes(0, e.cycle);
      forall key | key in CounterKeys(e) ensures Clean(key) != RecentEventKey(cycle) {
        RecentIsNoCounter(cycle, e, key);
      }
      AddEachElsewhere(CountAll(map[], init, idBytes), CounterKeys(e), RecentEventKey(cycle));
      PaddedIsInjective(cycle, e.cycle);
    }
  }
}
