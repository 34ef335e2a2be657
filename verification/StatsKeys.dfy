/** The keys of the statistics store, as paths of components. */
module StatsKeys {
  import opened Entities

  /** A key before datastore.NewKey: the components between slashes. */
  type RawKey = seq<string>

  /** datastore.NewKey drops empty components. */
  function Clean(key: RawKey): seq<string> {
    if key == [] then [] else (if key[0] == "" then [] else [key[0]]) + Clean(key[1..])
  }

  function ModelName(m: Model): string {
    match m
    case NoModel => ""
    case AuthModel => "auth"
    case TopicModel => "top"
    case SubscriptionModel => "sub"
    case MessageModel => "msg"
    case SubnetModel => "snet"
    case WalletModel => "wal"
  }

  // ---------------------------------------------------------------------------------------------
  // %015d

  predicate IsDigit(c: char) {
    '0' <= c <= '9'
  }

  function Digits(n: nat): (s: string)
    ensures s != [] && forall i :: 0 <= i < |s| ==> IsDigit(s[i])
    ensures n > 0 ==> s[0] != '0'
  {
    var c := '0' + (n % 10) as char;
    if n < 10 then [c] else Digits(n / 10) + [c]
  }

  function Zeros(n: nat): string {
    seq(n, i => '0')
  }

  /** At least fifteen digits, and zeros in front only to reach them. */
  function Padded(n: nat): (s: string)
    ensures |s| >= 15 && (|s| > 15 ==> s[0] != '0') && forall i :: 0 <= i < |s| ==> IsDigit(s[i])
  {
    var d := Digits(n);
    if |d| >= 15 then d else Zeros(15 - |d|) + d
  }

  /** The number a string of digits denotes. */
  function ValueOf(s: string): int {
    if s == [] then 0 else 10 * ValueOf(s[..|s| - 1]) + (s[|s| - 1] as int - '0' as int)
  }

  lemma {:induction false} DigitsDenote(n: nat)
    ensures ValueOf(Digits(n)) == n
  {
    if n >= 10 {
      DigitsDenote(n / 10);
      assert Digits(n)[..|Digits(n)| - 1] == Digits(n / 10);
    }
  }

  lemma {:induction false} LeadingZeros(k: nat, s: string)
    ensures ValueOf(Zeros(k) + s) == ValueOf(s)
    decreases |s|, k
  {
    if s != [] {
      assert (Zeros(k) + s)[..|Zeros(k) + s| - 1] == Zeros(k) + s[..|s| - 1];
      LeadingZeros(k, s[..|s| - 1]);
    } else if k != 0 {
      assert (Zeros(k) + s)[..|Zeros(k) + s| - 1] == Zeros(k - 1) + [];
      LeadingZeros(k - 1, []);
    }
  }

  lemma PaddedDenotes(n: nat)
    ensures ValueOf(Padded(n)) == n
  {
    DigitsDenote(n);
    LeadingZeros(if |Digits(n)| >= 15 then 0 else 15 - |Digits(n)|, Digits(n));
    assert Zeros(0) + Digits(n) == Digits(n);
  }

  /** Padding keeps different numbers apart. */
  lemma PaddedIsInjective(m: nat, n: nat)
    ensures Padded(m) == Padded(n) <==> m == n
  {
    PaddedDenotes(m);
    PaddedDenotes(n);
  }

  lemma PaddedIsNoModel(n: nat, m: Model)
    ensures Padded(n) != ModelName(m)
  {
    assert IsDigit(Padded(n)[0]);
  }

  // ---------------------------------------------------------------------------------------------

  /** The fields of an event that the statistics look at. */
  datatype CountedEvent = CountedEvent(
    id: string, cycle: uint64, epoch: uint64, block: uint64, eventType: uint16, validator: string, subnet: string,
    payloadSubnet: string) {

    function Model(): Model {
      GetModelTypeFromEventType(eventType)
    }

    /** The window counter falls back to the payload's subnet. */
    function Subnet(): string {
      if subnet == "" then payloadSubnet else subnet
    }
  }

  function NetworkCounterKey(subnet: string): RawKey {
    ["net", subnet]
  }

  /** CycleCounterKey(cycle, &validator, false, nil) */
  function CycleCounterKey(cycle: uint64, validator: string): RawKey {
    ["cy", Padded(cycle), validator, "0"]
  }

  function CycleSubnetKey(cycle: uint64, subnet: string): RawKey {
    ["cyc", Padded(cycle), subnet]
  }

  function RecentEventKey(cycle: uint64): RawKey {
    ["c", Padded(cycle), "e"]
  }

  function ModelKey(m: Model): RawKey {
    ["e", ModelName(m)]
  }

  function BlockModelKey(block: uint64, m: Model): RawKey {
    ["b", Padded(block), ModelName(m)]
  }

  function BlockKey(block: uint64): RawKey {
    ["b", Padded(block)]
  }

  function EpochKey(epoch: uint64): RawKey {
    ["e", Padded(epoch)]
  }

  function CycleKey(cycle: uint64): RawKey {
    ["c", Padded(cycle)]
  }

  const TOTAL_KEY: RawKey := ["e"]
  const NETWORK_KEY: RawKey := ["net"]

  /** The counters among GetBlockStatsKeys; the recent-event key is the last one and comes after them. */
  function StatsCounters(e: CountedEvent): seq<RawKey> {
    [TOTAL_KEY, ModelKey(e.Model()), BlockModelKey(e.block, e.Model()),
     BlockKey(e.block), EpochKey(e.epoch), CycleKey(e.cycle)]
  }

  function GetBlockStatsKeys(e: CountedEvent): seq<RawKey> {
    StatsCounters(e) + [RecentEventKey(e.cycle)]
  }

  /** The keys IncrementCounters counts under. */
  function NetworkCounters(cycle: uint64, validator: string, subnet: string): seq<RawKey> {
    [NetworkCounterKey(""), CycleCounterKey(cycle, validator),
     if |subnet| > 0 then NetworkCounterKey(subnet) else CycleSubnetKey(cycle, subnet)]
  }

  /** All counters of one event. */
  function CounterKeys(e: CountedEvent): seq<RawKey> {
    NetworkCounters(e.cycle, e.validator, e.Subnet()) + StatsCounters(e)
  }

  function AllKeys(events: seq<CountedEvent>): seq<RawKey> {
    if events == [] then [] else AllKeys(events[..|events| - 1]) + CounterKeys(events[|events| - 1])
  }

  function Part(a: string): RawKey {
    if a == "" then [] else [a]
  }

  lemma Clean1(a: string)
    ensures Clean([a]) == Part(a)
  {
    assert [a][1..] == [];
  }

  lemma Clean2(a: string, b: string)
    ensures Clean([a, b]) == Part(a) + Part(b)
  {
    assert [a, b][1..] == [b];
    Clean1(b);
  }

  lemma Clean3(a: string, b: string, c: string)
    ensures Clean([a, b, c]) == Part(a) + Part(b) + Part(c)
  {
    assert [a, b, c][1..] == [b, c];
    Clean2(b, c);
  }

  lemma CleanNetwork(cycle: uint64, subnet: string)
    ensures Clean(NetworkCounterKey("")) == NETWORK_KEY
    ensures subnet != "" ==> Clean(NetworkCounterKey(subnet)) == ["net", subnet]
    ensures Clean(CycleSubnetKey(cycle, "")) == ["cyc", Padded(cycle)]
  {
    Clean2("net", "");
    Clean2("net", subnet);
    Clean3("cyc", Padded(cycle), "");
  }

  lemma CleanCycleCounter(cycle: uint64, validator: string)
    ensures Clean(CycleCounterKey(cycle, validator)) ==
      if validator == "" then ["cy", Padded(cycle), "0"] else ["cy", Padded(cycle), validator, "0"]
  {
    var key := CycleCounterKey(cycle, validator);
    assert key[1..] == [Padded(cycle), validator, "0"];
    Clean3(Padded(cycle), validator, "0");
  }

  /** Without a model the per-model counters fall together with the total and with the block. */
  lemma CleanModels(block: uint64, m: Model)
    ensures m == AuthModel ==> Clean(ModelKey(m)) == ["e", "auth"]
    ensures m == TopicModel ==> Clean(ModelKey(m)) == ["e", "top"]
    ensures m == SubscriptionModel ==> Clean(ModelKey(m)) == ["e", "sub"]
    ensures m == MessageModel ==> Clean(ModelKey(m)) == ["e", "msg"]
    ensures m == SubnetModel ==> Clean(ModelKey(m)) == ["e", "snet"]
    ensures m == WalletModel ==> Clean(ModelKey(m)) == ["e", "wal"]
    ensures Clean(TOTAL_KEY) == TOTAL_KEY && Clean(BlockKey(block)) == BlockKey(block)
    ensures Clean(ModelKey(m)) == if m == NoModel then TOTAL_KEY else ModelKey(m)
    ensures Clean(BlockModelKey(block, m)) == if m == NoModel then BlockKey(block) else BlockModelKey(block, m)
  {
    Clean1("e");
    Clean2("b", Padded(block));
    Clean2("e", ModelName(m));
    Clean3("b", Padded(block), ModelName(m));
  }

  lemma CleanTimes(epoch: uint64, cycle: uint64)
    ensures Clean(EpochKey(epoch)) == EpochKey(epoch)
    ensures Clean(CycleKey(cycle)) == CycleKey(cycle)
    ensures Clean(RecentEventKey(cycle)) == RecentEventKey(cycle)
  {
    Clean2("e", Padded(epoch));
    Clean2("c", Padded(cycle));
    Clean3("c", Padded(cycle), "e");
  }

  /** A cleaned counter key that starts with "c" is the cycle's counter. */
  lemma CounterShape(e: CountedEvent, i: nat)
    requires i < |CounterKeys(e)|
    ensures var k := Clean(CounterKeys(e)[i]); k != [] && (k[0] == "c" ==> |k| == 2)
  {
    if i == 0 || i == 2 {
      CleanNetwork(e.cycle, e.Subnet());
    } else if i == 1 {
      CleanCycleCounter(e.cycle, e.validator);
    } else if i == 7 || i == 8 {
      CleanTimes(e.epoch, e.cycle);
    } else {
      CleanModels(e.block, e.Model());
    }
  }

  /** No recent-event key is a counter. */
  lemma RecentIsNoCounter(cycle: uint64, e: CountedEvent, key: RawKey)
    requires key in CounterKeys(e)
    ensures Clean(key) != Clean(RecentEventKey(cycle))
  {
    var i :| 0 <= i < |CounterKeys(e)| && CounterKeys(e)[i] == key;
    CounterShape(e, i);
    CleanTimes(0, cycle);
  }
}
