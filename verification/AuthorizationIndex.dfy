/** The keys under which an authorization is stored, and what the index over them answers. */
module AuthorizationIndex {
  import opened Wrappers
  import opened Datastore

  /**
   * An authorization as stored. `id` is what GetId yields, empty where it fails; `stamp` is the
   * timestamp, a pointer in the source, as formatted in keys.
   */
  datatype AuthState = AuthState(
    id: string, account: string, agent: string, subnet: string, grantor: string, topicIds: string,
    stamp: Option<string>, eventId: string, content: string) {

    /** Read only where there is one. */
    function Stamp(): string {
      if stamp.Some? then stamp.value else ""
    }
  }

  datatype Value = EventId(id: string) | Packed(state: AuthState) | Number(n: nat)

  type Store = map<Key, Value>

  const AGENT_COUNT_KEY: Key := ["sub", "agents"]

  function AuthorizedAgentStateKey(a: AuthState): Key {
    if a.account == "" then ["auth", "agt", a.agent, a.subnet] else ["auth", "agt", a.agent, a.subnet, a.account]
  }

  function AccountAuthorizationsKey(a: AuthState): Key {
    if a.topicIds != "" && a.topicIds != "*" then ["auth", "agt", a.account, a.subnet, a.agent, a.topicIds]
    else if a.subnet != "" then
      if a.agent != "" then ["auth", "agt", a.account, a.subnet, a.agent] else ["auth", "agt", a.account, a.subnet]
    else ["auth", "agt", a.account]
  }

  /** strings.ReplaceAll(key, "/", ":") */
  function Joined(key: Key): string {
    if key == [] then "" else if |key| == 1 then key[0] else key[0] + ":" + Joined(key[1..])
  }

  function IdKey(a: AuthState): Key {
    ["auth", "id", Joined(AccountAuthorizationsKey(a))]
  }

  /** NewKey drops an empty grantor. */
  function GrantorKey(a: AuthState): Key {
    if a.grantor == "" then ["auth", a.subnet, a.id] else ["auth", a.grantor, a.subnet, a.id]
  }

  function GetKeys(a: AuthState): seq<Key> {
    [AuthorizedAgentStateKey(a) + [a.Stamp()], AccountAuthorizationsKey(a) + [a.Stamp()],
     IdKey(a), DataKey("auth", a.eventId)]
    + if a.account != a.grantor then [GrantorKey(a)] else []
  }

  function Agents(store: Store): nat {
    if AGENT_COUNT_KEY in store && store[AGENT_COUNT_KEY].Number? then store[AGENT_COUNT_KEY].n else 0
  }

  /** CreateState: the data key holds the state, every other key the event's id. */
  function Values(a: AuthState): Key -> Value {
    k => if k == DataKey("auth", a.eventId) then Packed(a) else EventId(a.eventId)
  }

  predicate IsComplete(a: AuthState) {
    a.account != "" && a.agent != "" && a.subnet != "" && a.id != ""
  }

  /** Building the keys of another one dereferences its timestamp. */
  predicate Storable(a: AuthState) {
    IsComplete(a) && a.stamp.Some?
  }

  function Counted(store: Store, a: AuthState): Store {
    if Entries(store, AccountAuthorizationsKey(a)) != {} then store
    else store[AGENT_COUNT_KEY := Number(Agents(store) + 1)]
  }

  function Cleared(store: Store, a: AuthState): Store {
    store - Entries(store, AccountAuthorizationsKey(a)) - Entries(store, AuthorizedAgentStateKey(a))
  }

  function Create(store: Store, a: AuthState): Store {
    PutAll(Cleared(Counted(store, a), a), GetKeys(a), Values(a))
  }

  /** The state under its event, and the event for the account, for the agent, under the id and for the grantor. */
  predicate IsCreated(store: Store, a: AuthState)
    requires a.stamp.Some?
  {
    var topics := if a.topicIds == "" || a.topicIds == "*" then [] else [a.topicIds];
    var prefix := ["auth", "agt", a.account, a.subnet, a.agent] + topics;
    && Holds(store, prefix + [a.stamp.value], EventId(a.eventId))
    && Holds(store, ["auth", "agt", a.agent, a.subnet, a.account, a.stamp.value], EventId(a.eventId))
    && Holds(store, ["data", "auth", a.eventId], Packed(a))
    && Holds(store, ["auth", "id", Joined(prefix)], EventId(a.eventId))
    && (a.account != a.grantor && a.grantor != "" ==>
          Holds(store, ["auth", a.grantor, a.subnet, a.id], EventId(a.eventId)))
  }

  predicate Holds(store: Store, k: Key, v: Value) {
    k in store && store[k] == v
  }

  lemma CreatedUnderAllKeys(store: Store, a: AuthState)
    requires Storable(a)
    ensures IsCreated(Create(store, a), a)
  {
    var keys := GetKeys(a);
    var cleared := Cleared(Counted(store, a), a);
    forall k | k in keys ensures Holds(Create(store, a), k, Values(a)(k)) {
      PutAllPuts(cleared, keys, Values(a), k);
    }
    assert keys[0] in keys && keys[1] in keys && keys[2] in keys && keys[3] in keys;
    assert a.account != a.grantor ==> keys[4] in keys;
    assert keys[0] == ["auth", "agt", a.agent, a.subnet, a.account, a.stamp.value];
    var topics := if a.topicIds == "" || a.topicIds == "*" then [] else [a.topicIds];
    assert AccountAuthorizationsKey(a) == ["auth", "agt", a.account, a.subnet, a.agent] + topics;
    assert keys[1] == ["auth", "agt", a.account, a.subnet, a.agent] + topics + [a.stamp.value];
  }

  // ---------------------------------------------------------------------------------------------
  // Id keys.

  predicate NoColon(key: Key) {
    forall i | 0 <= i < |key| :: ':' !in key[i]
  }

  lemma {:induction false} SplitAtColon(a: string, x: string, b: string, y: string)
    requires ':' !in a && ':' !in b && a + ":" + x == b + ":" + y
    ensures a == b && x == y
  {
    if a == [] || b == [] {
      assert a == [] ==> (b + ":" + y)[0] == ':';
      assert b == [] ==> (a + ":" + x)[0] == ':';
      assert (a + ":" + x)[1..] == x && (b + ":" + y)[1..] == y;
    } else {
      assert (a + ":" + x)[0] == a[0] && (b + ":" + y)[0] == b[0];
      assert (a + ":" + x)[1..] == a[1..] + ":" + x && (b + ":" + y)[1..] == b[1..] + ":" + y;
      SplitAtColon(a[1..], x, b[1..], y);
      assert a == [a[0]] + a[1..] && b == [b[0]] + b[1..];
    }
  }

  lemma {:induction false} NoColonJoined(key: Key)
    requires key != [] && NoColon(key)
    ensures ':' in Joined(key) <==> |key| > 1
  {
    if |key| > 1 {
      assert Joined(key)[|key[0]|] == ':';
    }
  }

  /** Joining tells keys apart whose components hold no colon themselves. */
  lemma {:induction false} JoinedIsInjective(k: Key, l: Key)
    requires k != [] && l != [] && NoColon(k) && NoColon(l) && Joined(k) == Joined(l)
    ensures k == l
  {
    NoColonJoined(k);
    NoColonJoined(l);
    if |k| > 1 {
      SplitAtColon(k[0], Joined(k[1..]), l[0], Joined(l[1..]));
      JoinedIsInjective(k[1..], l[1..]);
      assert k == [k[0]] + k[1..] && l == [l[0]] + l[1..];
    }
  }

  /** So authorizations have the same id key exactly for the same account, subnet, agent and list of topics. */
  lemma IdKeysApart(a: AuthState, b: AuthState)
    requires Storable(a) && Storable(b)
    requires NoColon([a.account, a.subnet, a.agent, a.topicIds]) && NoColon([b.account, b.subnet, b.agent, b.topicIds])
    ensures IdKey(a) == IdKey(b) <==>
      a.account == b.account && a.subnet == b.subnet && a.agent == b.agent &&
      (if ForTopics(a) then a.topicIds == b.topicIds else !ForTopics(b))
  {
    var k, l := AccountAuthorizationsKey(a), AccountAuthorizationsKey(b);
    assert ':' !in "auth" && ':' !in "agt";
    var c, d := [a.account, a.subnet, a.agent, a.topicIds], [b.account, b.subnet, b.agent, b.topicIds];
    assert ':' !in c[0] && ':' !in c[1] && ':' !in c[2] && ':' !in c[3];
    assert ':' !in d[0] && ':' !in d[1] && ':' !in d[2] && ':' !in d[3];
    if IdKey(a) == IdKey(b) {
      assert IdKey(a)[2] == Joined(k) && IdKey(b)[2] == Joined(l);
      JoinedIsInjective(k, l);
      assert k[2] == l[2] && k[3] == l[3] && k[4] == l[4];
    }
  }

  /** With colons in them they may share one. */
  lemma ColonsMayCollide()
    ensures Joined(["auth", "agt", "a:b", "c", "d"]) == Joined(["auth", "agt", "a", "b:c", "d"])
  {
    assert Joined(["c", "d"]) == "c:d" && Joined(["b:c", "d"]) == "b:c:d";
    assert Joined(["a:b", "c", "d"]) == "a:b:c:d" && Joined(["a", "b:c", "d"]) == "a:b:c:d";
    assert ["auth", "agt", "a:b", "c", "d"][1..][1..] == ["a:b", "c", "d"];
    assert ["auth", "agt", "a", "b:c", "d"][1..][1..] == ["a", "b:c", "d"];
  }

  // ---------------------------------------------------------------------------------------------

  class StateStore {
    var data: Store

    constructor ()
      ensures data == map[]
    {
      data := map[];
    }

    /** Inside a transaction. */
    method CreateAuthorizationState(newState: AuthState) returns (ok: bool, crashed: bool)
      modifies this
      ensures ok <==> Storable(newState)
      ensures crashed <==> IsComplete(newState) && newState.stamp.None?
      ensures ok ==> IsCreated(data, newState)
      ensures data == if ok then Create(old(data), newState) else old(data)
    {
      if newState.account == "" || newState.agent == "" || newState.subnet == "" {
        return false, false;
      }
      if newState.id == "" {
        return false, false;
      }
      if newState.stamp.None? {
        return false, true;
      }
      var entries := Entries(data, AccountAuthorizationsKey(newState));
      if |entries| == 0 {
        var agentCount := 0;
        if AGENT_COUNT_KEY in data && data[AGENT_COUNT_KEY].Number? {
          agentCount := data[AGENT_COUNT_KEY].n;
        }
        agentCount := agentCount + 1;
        data := data[AGENT_COUNT_KEY := Number(agentCount)];
      }
      ghost var counted := data;
      assert counted == Counted(old(data), newState);
      CountedEntries(old(data), newState);
      DeleteEach(entries);
      var entries2 := Entries(data, AuthorizedAgentStateKey(newState));
      DeleteEach(entries2);
      assert data == Cleared(counted, newState);
      PutEach(GetKeys(newState), newState);
      CreatedUnderAllKeys(old(data), newState);
      return true, false;
    }

    method DeleteEach(entries: set<Key>)
      modifies this
      ensures data == old(data) - entries
    {
      var rest := entries;
      while rest != {}
        invariant rest <= entries && data == old(data) - (entries - rest)
      {
        var key :| key in rest;
        data := data - {key};
        rest := rest - {key};
      }
      assert entries - {} == entries;
    }

    /** GetAuthorizationByEvent for each entry below the prefix, in some order and up to the limit; 0 is no limit. */
    method GetAccountAuthorizations(auth: AuthState, limit: nat) returns (found: seq<AuthState>)
      ensures Elements(found) <= Found(data, AccountAuthorizationsKey(auth)) && (limit > 0 ==> |found| <= limit)
      ensures limit == 0 || |Entries(data, AccountAuthorizationsKey(auth))| <= limit ==>
        Elements(found) == Found(data, AccountAuthorizationsKey(auth))
    {
      found := [];
      var store := data;
      var rest := Entries(store, AccountAuthorizationsKey(auth));
      ghost var done: set<Key> := {};
      var i := 0;
      while rest != {} && (limit == 0 || i < limit)
        invariant (limit > 0 ==> i <= limit) && |found| <= i
        invariant done !! rest && done + rest == Entries(store, AccountAuthorizationsKey(auth)) && |done| == i
        invariant Elements(found) == FoundIn(store, done)
      {
        var key :| key in rest;
        i, rest := i + 1, rest - {key};
        FoundOneMore(store, done, key);
        done := done + {key};
        var value := ByEvent(store, store[key]);
        if value.None? {
          continue;
        }
        OneMoreElement(found, value.value);
        found := found + [value.value];
      }
      assert limit == 0 || |done + rest| <= limit ==> rest == {};
      assert rest == {} ==> done + rest == done;
    }

    /** The loop of CreateState. */
    method PutEach(keys: seq<Key>, a: AuthState)
      modifies this
      ensures data == PutAll(old(data), keys, Values(a))
    {
      for i := 0 to |keys|
        invariant data == PutAll(old(data), keys[..i], Values(a))
      {
        assert keys[..i + 1][..i] == keys[..i];
        if keys[i] == DataKey("auth", a.eventId) {
          data := data[keys[i] := Packed(a)];
          continue;
        }
        data := data[keys[i] := EventId(a.eventId)];
      }
      assert keys[..|keys|] == keys;
    }
  }

  function Elements<T(==)>(s: seq<T>): set<T> {
    set x | x in s
  }

  lemma OneMoreElement<T>(s: seq<T>, x: T)
    ensures Elements(s + [x]) == Elements(s) + {x}
  {
  }

  function FoundIn(store: Store, keys: set<Key>): set<AuthState>
    requires keys <= store.Keys
  {
    set k | k in keys && ByEvent(store, store[k]).Some? :: ByEvent(store, store[k]).value
  }

  lemma FoundOneMore(store: Store, keys: set<Key>, key: Key)
    requires keys <= store.Keys && key in store
    ensures FoundIn(store, keys + {key}) == FoundIn(store, keys) +
      if ByEvent(store, store[key]).Some? then {ByEvent(store, store[key]).value} else {}
  {
  }

  lemma CountedEntries(store: Store, a: AuthState)
    ensures Entries(Counted(store, a), AccountAuthorizationsKey(a)) == Entries(store, AccountAuthorizationsKey(a))
  {
  }

  // ---------------------------------------------------------------------------------------------
  // Reading.

  /** The states that a query below the prefix finds when the limit does not cut it off. */
  function Found(store: Store, prefix: Key): set<AuthState> {
    FoundIn(store, Entries(store, prefix))
  }

  /** GetAuthorizationByEvent */
  function ByEvent(store: Store, event: Value): Option<AuthState> {
    if event.EventId? && DataKey("auth", event.id) in store && store[DataKey("auth", event.id)].Packed?
    then Some(store[DataKey("auth", event.id)].state) else None
  }

  /** Who is granted what by whom. */
  datatype Triple = Triple(account: string, subnet: string, agent: string)

  function Prefix(t: Triple): Key {
    ["auth", "agt", t.account, t.subnet, t.agent]
  }

  function Swap(t: Triple): Triple {
    Triple(t.agent, t.subnet, t.account)
  }

  function TripleOf(a: AuthState): Triple {
    Triple(a.account, a.subnet, a.agent)
  }

  predicate ForTopics(a: AuthState) {
    a.topicIds != "" && a.topicIds != "*"
  }

  /** The simple map that the index stands for: the latest authorization of each triple. */
  function Latest(run: seq<AuthState>, t: Triple): Option<AuthState> {
    if run == [] then None
    else if TripleOf(run[|run| - 1]) == t then Some(run[|run| - 1])
    else Latest(run[..|run| - 1], t)
  }

  function After(run: seq<AuthState>): Store {
    if run == [] then map[] else Create(After(run[..|run| - 1]), run[|run| - 1])
  }

  predicate FreshEvents(run: seq<AuthState>) {
    forall i, j :: 0 <= i < j < |run| ==> run[i].eventId != run[j].eventId
  }

  predicate IsRun(run: seq<AuthState>) {
    (forall a :: a in run ==> Storable(a)) && FreshEvents(run)
  }

  /**
   * What the index holds for a triple: one entry directly below its prefix, left by a grant for all topics or by a
   * grant in the opposite direction, and one below each list of topics.
   */
  datatype Slots = Slots(base: Option<AuthState>, topics: map<string, AuthState>) {
    function Members(): set<AuthState> {
      (if base.Some? then {base.value} else {}) + topics.Values
    }
  }

  function NextSlots(s: Slots, t: Triple, a: AuthState): Slots {
    if TripleOf(a) == Swap(t) then
      Slots(Some(a), if TripleOf(a) == t && ForTopics(a) then map[a.topicIds := a] else map[])
    else if TripleOf(a) != t then s
    else if ForTopics(a) then s.(topics := s.topics[a.topicIds := a])
    else Slots(Some(a), map[])
  }

  function SlotsOf(run: seq<AuthState>, t: Triple): Slots {
    if run == [] then Slots(None, map[]) else NextSlots(SlotsOf(run[..|run| - 1], t), t, run[|run| - 1])
  }

  /** The authorization whose entry is stored under the key. */
  function SlotAt(s: Slots, k: Key): Option<AuthState> {
    if |k| == 6 && s.base.Some? && s.base.value.Stamp() == k[5] then s.base
    else if |k| == 7 && k[5] in s.topics && s.topics[k[5]].Stamp() == k[6] then Some(s.topics[k[5]])
    else None
  }

  // ---------------------------------------------------------------------------------------------
  // One creation.

  lemma KeysOf(a: AuthState)
    requires Storable(a)
    ensures AccountAuthorizationsKey(a) == Prefix(TripleOf(a)) + if ForTopics(a) then [a.topicIds] else []
    ensures AuthorizedAgentStateKey(a) == Prefix(Swap(TripleOf(a)))
  {
  }

  lemma UnderPrefix(t: Triple, k: Key)
    ensures Under(Prefix(t), k) <==>
      |k| >= 6 && k[0] == "auth" && k[1] == "agt" && k[2] == t.account && k[3] == t.subnet && k[4] == t.agent
  {
    if |k| >= 6 {
      assert k[..5] == [k[0], k[1], k[2], k[3], k[4]];
    }
  }

  lemma UnderTopics(t: Triple, topics: string, k: Key)
    ensures Under(Prefix(t) + [topics], k) <==> Under(Prefix(t), k) && |k| >= 7 && k[5] == topics
  {
    if |k| >= 7 {
      assert k[..6] == k[..5] + [k[5]];
    }
  }

  /** Which keys a creation leaves, key by key. */
  lemma CreateAt(store: Store, a: AuthState, k: Key)
    requires Storable(a) && k != AGENT_COUNT_KEY
    ensures var cleared := Under(AccountAuthorizationsKey(a), k) || Under(AuthorizedAgentStateKey(a), k);
      && (k in Create(store, a) <==> k in GetKeys(a) || (k in store && !cleared))
      && (k in GetKeys(a) ==> Create(store, a)[k] == Values(a)(k))
      && (k in store && k !in GetKeys(a) && !cleared ==> Create(store, a)[k] == store[k])
  {
    PutAllPuts(Cleared(Counted(store, a), a), GetKeys(a), Values(a), k);
  }

  /** The keys that a creation puts below a triple's prefix. */
  lemma KeysUnder(a: AuthState, t: Triple, k: Key)
    requires Storable(a) && Under(Prefix(t), k)
    ensures k in GetKeys(a) <==>
      (TripleOf(a) == Swap(t) && k == Prefix(t) + [a.Stamp()])
      || (TripleOf(a) == t && k == Prefix(t) + if ForTopics(a) then [a.topicIds, a.Stamp()] else [a.Stamp()])
  {
    KeysOf(a);
    UnderPrefix(t, k);
    UnderPrefix(TripleOf(a), k);
    UnderPrefix(Swap(TripleOf(a)), k);
    assert Swap(Swap(t)) == t;
    var keys := GetKeys(a);
    assert keys[0] == Prefix(Swap(TripleOf(a))) + [a.Stamp()];
    assert keys[1] == Prefix(TripleOf(a)) + if ForTopics(a) then [a.topicIds, a.Stamp()] else [a.Stamp()];
  }

  /** What is cleared below a triple's prefix. */
  lemma ClearedUnder(a: AuthState, t: Triple, k: Key)
    requires Storable(a) && Under(Prefix(t), k)
    ensures Under(AuthorizedAgentStateKey(a), k) <==> TripleOf(a) == Swap(t)
    ensures Under(AccountAuthorizationsKey(a), k) <==>
      TripleOf(a) == t && (ForTopics(a) ==> |k| >= 7 && k[5] == a.topicIds)
  {
    KeysOf(a);
    UnderPrefix(t, k);
    UnderPrefix(TripleOf(a), k);
    UnderPrefix(Swap(TripleOf(a)), k);
    UnderTopics(TripleOf(a), a.topicIds, k);
    assert Prefix(TripleOf(a)) + [] == Prefix(TripleOf(a));
  }

  /** Below the prefix exactly the slots' entries are stored, each naming its authorization's event. */
  predicate HoldsAt(store: Store, t: Triple, s: Slots, k: Key) {
    Under(Prefix(t), k) ==>
      (k in store <==> SlotAt(s, k).Some?) && (k in store ==> store[k] == EventId(SlotAt(s, k).value.eventId))
  }

  lemma KeyParts(t: Triple, k: Key, a: string, b: string)
    requires Under(Prefix(t), k)
    ensures k == Prefix(t) + [a] <==> |k| == 6 && k[5] == a
    ensures k == Prefix(t) + [a, b] <==> |k| == 7 && k[5] == a && k[6] == b
  {
    assert k == Prefix(t) + k[5..];
  }

  /** A creation moves the slots on. */
  lemma CreateHoldsAt(store: Store, a: AuthState, t: Triple, s: Slots, k: Key)
    requires Storable(a) && HoldsAt(store, t, s, k)
    ensures HoldsAt(Create(store, a), t, NextSlots(s, t, a), k)
  {
    if Under(Prefix(t), k) {
      UnderPrefix(t, k);
      KeysUnder(a, t, k);
      ClearedUnder(a, t, k);
      CreateAt(store, a, k);
      KeyParts(t, k, a.Stamp(), "");
      KeyParts(t, k, a.topicIds, a.Stamp());
      assert k != DataKey("auth", a.eventId);
    }
  }

  /** Under its event a creation stores its own state; under all others it leaves what was there. */
  lemma CreateData(store: Store, a: AuthState, eventId: string)
    requires Storable(a)
    ensures ByEvent(Create(store, a), EventId(eventId))
      == if eventId == a.eventId then Some(a) else ByEvent(store, EventId(eventId))
  {
    var k := DataKey("auth", eventId);
    assert GetKeys(a)[3] == DataKey("auth", a.eventId);
    assert DataKey("auth", eventId)[2] == eventId && DataKey("auth", a.eventId)[2] == a.eventId;
    KeysOf(a);
    CreateAt(store, a, k);
    assert GetKeys(a)[0][0] == "auth" && GetKeys(a)[1][0] == "auth";
  }

  lemma CreateAgents(store: Store, a: AuthState)
    requires Storable(a)
    ensures Agents(Create(store, a)) ==
      Agents(store) + if Entries(store, AccountAuthorizationsKey(a)) == {} then 1 else 0
  {
    KeysOf(a);
    UnderPrefix(TripleOf(a), AGENT_COUNT_KEY);
    UnderTopics(TripleOf(a), a.topicIds, AGENT_COUNT_KEY);
    UnderPrefix(Swap(TripleOf(a)), AGENT_COUNT_KEY);
    assert Prefix(TripleOf(a)) + [] == Prefix(TripleOf(a));
    PutAllPuts(Cleared(Counted(store, a), a), GetKeys(a), Values(a), AGENT_COUNT_KEY);
    assert GetKeys(a)[0][0] == "auth" && GetKeys(a)[1][0] == "auth";
  }

  // ---------------------------------------------------------------------------------------------
  // Any run of creations.

  /** Whatever the run, the entries of a triple are those of its slots. */
  lemma {:induction false} IndexAfterRun(run: seq<AuthState>, t: Triple, k: Key)
    requires IsRun(run)
    ensures HoldsAt(After(run), t, SlotsOf(run, t), k)
  {
    if run != [] {
      var init, a := run[..|run| - 1], run[|run| - 1];
      assert a in run;
      IndexAfterRun(init, t, k);
      CreateHoldsAt(After(init), a, t, SlotsOf(init, t), k);
    }
  }

  /** Every authorization stays readable under its event's id. */
  lemma {:induction false} EveryVersionStays(run: seq<AuthState>, i: nat)
    requires IsRun(run) && i < |run|
    ensures ByEvent(After(run), EventId(run[i].eventId)) == Some(run[i])
  {
    var init, a := run[..|run| - 1], run[|run| - 1];
    assert a in run;
    CreateData(After(init), a, run[i].eventId);
    if i < |run| - 1 {
      EveryVersionStays(init, i);
    }
  }

  /** Slots hold authorizations of the run, of the triple or of its opposite. */
  predicate AreOf(s: Slots, run: seq<AuthState>, t: Triple) {
    && (s.base.Some? ==> s.base.value in run && (TripleOf(s.base.value) == t || TripleOf(s.base.value) == Swap(t)))
    && (forall x :: x in s.topics ==>
         s.topics[x] in run && TripleOf(s.topics[x]) == t && ForTopics(s.topics[x]) && s.topics[x].topicIds == x)
  }

  lemma {:induction false} SlotsAreOfTheRun(run: seq<AuthState>, t: Triple)
    ensures AreOf(SlotsOf(run, t), run, t)
  {
    if run != [] {
      var init, a := run[..|run| - 1], run[|run| - 1];
      SlotsAreOfTheRun(init, t);
      assert run == init + [a];
    }
  }

  lemma MemberIsRead(run: seq<AuthState>, a: AuthState)
    requires IsRun(run) && a in run
    ensures ByEvent(After(run), EventId(a.eventId)) == Some(a)
  {
    var i: nat :| i < |run| && run[i] == a;
    EveryVersionStays(run, i);
  }

  /** What a query for the triple finds after a run. */
  lemma FoundAfterRun(run: seq<AuthState>, t: Triple)
    requires IsRun(run)
    ensures Found(After(run), Prefix(t)) == SlotsOf(run, t).Members()
  {
    var s, store := SlotsOf(run, t), After(run);
    SlotsAreOfTheRun(run, t);
    forall k | k in Entries(store, Prefix(t))
      ensures ByEvent(store, store[k]).Some? && ByEvent(store, store[k]).value in s.Members()
    {
      IndexAfterRun(run, t, k);
      MemberIsRead(run, SlotAt(s, k).value);
    }
    forall a | a in s.Members() ensures a in Found(store, Prefix(t)) {
      var k := if s.base == Some(a) then Prefix(t) + [a.Stamp()] else Prefix(t) + [a.topicIds, a.Stamp()];
      IndexAfterRun(run, t, k);
      MemberIsRead(run, a);
      UnderPrefix(t, k);
      assert k in Entries(store, Prefix(t));
    }
  }

  /** And what a query for particular topics finds. */
  lemma FoundForTopics(run: seq<AuthState>, t: Triple, topics: string)
    requires IsRun(run)
    ensures var s := SlotsOf(run, t);
      Found(After(run), Prefix(t) + [topics]) == if topics in s.topics then {s.topics[topics]} else {}
  {
    var s, store := SlotsOf(run, t), After(run);
    SlotsAreOfTheRun(run, t);
    forall k | k in Entries(store, Prefix(t) + [topics])
      ensures topics in s.topics && ByEvent(store, store[k]) == Some(s.topics[topics])
    {
      UnderTopics(t, topics, k);
      IndexAfterRun(run, t, k);
      MemberIsRead(run, SlotAt(s, k).value);
    }
    if topics in s.topics {
      var a := s.topics[topics];
      var k := Prefix(t) + [topics, a.Stamp()];
      UnderPrefix(t, k);
      UnderTopics(t, topics, k);
      IndexAfterRun(run, t, k);
      MemberIsRead(run, a);
      assert k in Entries(store, Prefix(t) + [topics]);
    }
  }

  /** So a grant for particular topics does not replace the one for all topics: a query for the triple finds both. */
  lemma TopicsDoNotReplace(a: AuthState, b: AuthState)
    requires Storable(a) && Storable(b) && !ForTopics(a) && ForTopics(b)
    requires TripleOf(b) == TripleOf(a) && a.account != a.agent && a.eventId != b.eventId
    ensures Found(After([a, b]), Prefix(TripleOf(a))) == {a, b}
  {
    var t := TripleOf(a);
    assert [a, b][..1] == [a] && [a][..0] == [];
    FoundAfterRun([a, b], t);
    assert SlotsOf([a], t) == Slots(Some(a), map[]);
    assert SlotsOf([a, b], t) == Slots(Some(a), map[b.topicIds := b]);
    OneValue(b.topicIds, b);
  }

  lemma OneValue<K, V>(k: K, v: V)
    ensures map[k := v].Values == {v}
  {
    assert k in map[k := v];
  }

  // ---------------------------------------------------------------------------------------------
  // The id key and the counter.

  /** The authorization stores its event under the key, as its id key or as a grantor key that looks like one. */
  predicate Marks(a: AuthState, k: Key) {
    k == IdKey(a) || (a.account != a.grantor && k == GrantorKey(a))
  }

  function LatestMarking(run: seq<AuthState>, k: Key): Option<AuthState> {
    if run == [] then None
    else if Marks(run[|run| - 1], k) then Some(run[|run| - 1])
    else LatestMarking(run[..|run| - 1], k)
  }

  /** The id key names the latest event that was stored under it. */
  lemma {:induction false} IdNamesLatest(run: seq<AuthState>, a: AuthState)
    requires IsRun(run)
    ensures var latest := LatestMarking(run, IdKey(a));
      if latest.None? then IdKey(a) !in After(run)
      else IdKey(a) in After(run) && After(run)[IdKey(a)] == EventId(latest.value.eventId)
  {
    if run != [] {
      var init, b := run[..|run| - 1], run[|run| - 1];
      assert b in run;
      IdNamesLatest(init, a);
      CreateId(After(init), b, IdKey(a));
    }
  }

  lemma CreateId(store: Store, b: AuthState, k: Key)
    requires Storable(b) && |k| == 3 && k[0] == "auth"
    ensures Marks(b, k) ==> k in Create(store, b) && Create(store, b)[k] == EventId(b.eventId)
    ensures !Marks(b, k) ==> (k in Create(store, b) <==> k in store)
    ensures !Marks(b, k) && k in store ==> Create(store, b)[k] == store[k]
  {
    KeysOf(b);
    var keys := GetKeys(b);
    assert keys[2] == IdKey(b) && keys[3] == DataKey("auth", b.eventId) && |keys[0]| >= 6 && |keys[1]| >= 6;
    assert b.account != b.grantor ==> keys[4] == GrantorKey(b);
    assert k in keys <==> Marks(b, k);
    CreateAt(store, b, k);
  }

  /** How many authorizations found nothing below their own prefix when they were created. */
  function Openings(run: seq<AuthState>): nat {
    if run == [] then 0
    else Openings(run[..|run| - 1]) + if Opens(run[..|run| - 1], run[|run| - 1]) then 1 else 0
  }

  predicate Opens(before: seq<AuthState>, a: AuthState) {
    var s := SlotsOf(before, TripleOf(a));
    if ForTopics(a) then a.topicIds !in s.topics else s.Members() == {}
  }

  lemma OpensOnEmpty(init: seq<AuthState>, a: AuthState)
    requires IsRun(init) && Storable(a)
    ensures Entries(After(init), AccountAuthorizationsKey(a)) == {} <==> Opens(init, a)
  {
    var t := TripleOf(a);
    KeysOf(a);
    var prefix := AccountAuthorizationsKey(a);
    assert prefix == Prefix(t) + if ForTopics(a) then [a.topicIds] else [];
    if ForTopics(a) {
      FoundForTopics(init, t, a.topicIds);
    } else {
      assert prefix == Prefix(t);
      FoundAfterRun(init, t);
    }
    forall k | k in Entries(After(init), prefix) ensures ByEvent(After(init), After(init)[k]).Some? {
      EntryIsRead(init, t, k);
    }
    if k :| k in Entries(After(init), prefix) {
      assert ByEvent(After(init), After(init)[k]).value in Found(After(init), prefix);
    }
  }

  lemma EntryIsRead(run: seq<AuthState>, t: Triple, k: Key)
    requires IsRun(run) && k in After(run)
    requires Under(Prefix(t), k) || exists topics :: Under(Prefix(t) + [topics], k)
    ensures ByEvent(After(run), After(run)[k]).Some?
  {
    if topics :| Under(Prefix(t) + [topics], k) {
      UnderTopics(t, topics, k);
    }
    IndexAfterRun(run, t, k);
    SlotsAreOfTheRun(run, t);
    MemberIsRead(run, SlotAt(SlotsOf(run, t), k).value);
  }

  /** The counter counts those. */
  lemma {:induction false} AgentsAfterRun(run: seq<AuthState>)
    requires IsRun(run)
    ensures Agents(After(run)) == Openings(run)
  {
    if run != [] {
      var init, a := run[..|run| - 1], run[|run| - 1];
      assert a in run;
      AgentsAfterRun(init);
      CreateAgents(After(init), a);
      OpensOnEmpty(init, a);
    }
  }

  // ---------------------------------------------------------------------------------------------
  // Agreement with the simple map.

  function Triples(run: seq<AuthState>): set<Triple> {
    set a | a in run :: TripleOf(a)
  }

  /** No two triples grant in opposite directions. */
  predicate NoSwaps(triples: set<Triple>) {
    forall t :: t in triples && Swap(t) in triples ==> Swap(t) == t
  }

  /** The triple's latest grant is for all topics, or all its grants are for the same ones. */
  predicate OneKind(run: seq<AuthState>, t: Triple) {
    var latest := Latest(run, t);
    Swap(t) != t && latest.Some? && ForTopics(latest.value) ==>
      forall a :: a in run && TripleOf(a) == t ==> a.topicIds == latest.value.topicIds
  }

  /** A query for each granted triple finds its latest authorization and nothing else. */
  predicate QueriesAgree(run: seq<AuthState>) {
    forall t :: t in Triples(run) ==> AgreesAt(run, t)
  }

  predicate AgreesAt(run: seq<AuthState>, t: Triple) {
    Found(After(run), Prefix(t)) == if Latest(run, t).Some? then {Latest(run, t).value} else {}
  }

  lemma {:induction false} LatestIsOfTheRun(run: seq<AuthState>, t: Triple)
    ensures Latest(run, t).Some? ==> Latest(run, t).value in run && TripleOf(Latest(run, t).value) == t
    ensures Latest(run, t).None? <==> t !in Triples(run)
  {
    if run != [] {
      var init, a := run[..|run| - 1], run[|run| - 1];
      LatestIsOfTheRun(init, t);
      TriplesGrow(init, a);
      assert run == init + [a];
    }
  }

  lemma TriplesGrow(init: seq<AuthState>, a: AuthState)
    ensures Triples(init + [a]) == Triples(init) + {TripleOf(a)}
  {
    forall t | t in Triples(init) + {TripleOf(a)} ensures t in Triples(init + [a]) {
      if t in Triples(init) {
        var b :| b in init && TripleOf(b) == t;
        assert b in init + [a];
      } else {
        assert a in init + [a];
      }
    }
  }

  /** A triple that is its own opposite holds its latest grant alone. */
  lemma {:induction false} OwnOpposite(run: seq<AuthState>, t: Triple)
    requires Swap(t) == t
    ensures SlotsOf(run, t).Members() == if Latest(run, t).Some? then {Latest(run, t).value} else {}
  {
    if run != [] {
      OwnOpposite(run[..|run| - 1], t);
    }
  }

  /** Without opposite grants the slots hold the grants of the triple since the last one for all topics, by topics. */
  lemma {:induction false} PureSlots(run: seq<AuthState>, t: Triple)
    requires Swap(t) != t && Swap(t) !in Triples(run)
    ensures SlotsOf(run, t).base.None? <==> forall a :: a in run && TripleOf(a) == t ==> ForTopics(a)
    ensures SlotsOf(run, t).base.None? ==>
      forall x :: x in SlotsOf(run, t).topics <==> exists a :: a in run && TripleOf(a) == t && a.topicIds == x
    ensures Latest(run, t).Some? ==> Latest(run, t).value in SlotsOf(run, t).Members()
  {
    if run != [] {
      var init, a := run[..|run| - 1], run[|run| - 1];
      TriplesGrow(init, a);
      assert run == init + [a];
      PureSlots(init, t);
      if TripleOf(a) == t && ForTopics(a) {
        assert a.topicIds in SlotsOf(run, t).topics && SlotsOf(run, t).topics[a.topicIds] == a;
      }
    }
  }

  /** Then the latest grant is alone exactly when it is of one kind with the others. */
  lemma {:induction false} PureAgrees(run: seq<AuthState>, t: Triple)
    requires FreshEvents(run) && Swap(t) != t && Swap(t) !in Triples(run) && t in Triples(run)
    ensures Latest(run, t).Some? && (SlotsOf(run, t).Members() == {Latest(run, t).value} <==> OneKind(run, t))
  {
    var init, b := run[..|run| - 1], run[|run| - 1];
    TriplesGrow(init, b);
    assert run == init + [b];
    if TripleOf(b) != t {
      PureAgrees(init, t);
    } else if ForTopics(b) {
      PureSlots(init, t);
      SlotsAreOfTheRun(init, t);
      OneMoreTopic(init, t, b);
    }
  }

  lemma OneMoreTopic(init: seq<AuthState>, t: Triple, b: AuthState)
    requires TripleOf(b) == t && Swap(t) != t && ForTopics(b) && AreOf(SlotsOf(init, t), init, t)
    requires forall a :: a in init ==> a != b
    requires SlotsOf(init, t).base.None? <==> forall a :: a in init && TripleOf(a) == t ==> ForTopics(a)
    requires SlotsOf(init, t).base.None? ==>
      forall x :: x in SlotsOf(init, t).topics <==> exists a :: a in init && TripleOf(a) == t && a.topicIds == x
    ensures NextSlots(SlotsOf(init, t), t, b).Members() == {b} <==>
      forall a :: a in init && TripleOf(a) == t ==> a.topicIds == b.topicIds
  {
    var s := SlotsOf(init, t);
    var next := NextSlots(s, t, b);
    assert next.topics == s.topics[b.topicIds := b] && b.topicIds in next.topics;
    if a :| a in init && TripleOf(a) == t && a.topicIds != b.topicIds {
      if s.base.None? {
        assert a.topicIds in next.topics && next.topics[a.topicIds] != b;
        assert next.topics[a.topicIds] in next.Members();
      } else {
        assert s.base.value in next.Members();
      }
    } else {
      assert s.base.None?;
      assert next.topics == map[b.topicIds := b];
      OneValue(b.topicIds, b);
    }
  }

  /** The latest grant of the triple or of its opposite is also what its own opposite holds. */
  lemma {:induction false} LatestOpposes(run: seq<AuthState>, t: Triple) returns (c: AuthState)
    requires t in Triples(run) || Swap(t) in Triples(run)
    ensures TripleOf(c) == t || TripleOf(c) == Swap(t)
    ensures SlotsOf(run, Swap(TripleOf(c))).base == Some(c)
  {
    var init, b := run[..|run| - 1], run[|run| - 1];
    TriplesGrow(init, b);
    assert run == init + [b] && Swap(Swap(t)) == t && Swap(Swap(TripleOf(b))) == TripleOf(b);
    if TripleOf(b) == t || TripleOf(b) == Swap(t) {
      c := b;
    } else {
      c := LatestOpposes(init, t);
    }
  }

  lemma SwappedDisagrees(run: seq<AuthState>, t: Triple)
    requires IsRun(run) && t in Triples(run) && Swap(t) in Triples(run) && Swap(t) != t
    ensures !QueriesAgree(run)
  {
    var c := LatestOpposes(run, t);
    var u := Swap(TripleOf(c));
    assert Swap(Swap(t)) == t && u in Triples(run);
    FoundAfterRun(run, u);
    LatestIsOfTheRun(run, u);
    assert c in SlotsOf(run, u).Members() && c != Latest(run, u).value;
    assert !AgreesAt(run, u);
  }

  /**
   * Every query finds the latest grant alone if and only if no two triples grant in opposite directions and each
   * triple's latest grant is for all topics or like all its others.
   */
  lemma QueriesAgreeIff(run: seq<AuthState>)
    requires IsRun(run)
    ensures QueriesAgree(run) <==> NoSwaps(Triples(run)) && forall t :: t in Triples(run) ==> OneKind(run, t)
  {
    if t :| t in Triples(run) && Swap(t) in Triples(run) && Swap(t) != t {
      SwappedDisagrees(run, t);
    } else {
      forall t | t in Triples(run) ensures AgreesAt(run, t) <==> OneKind(run, t) {
        GrantedAgrees(run, t);
      }
    }
  }

  /** A granted triple without an opposite: its query agrees exactly when it is of one kind. */
  lemma GrantedAgrees(run: seq<AuthState>, t: Triple)
    requires IsRun(run) && t in Triples(run) && (Swap(t) in Triples(run) ==> Swap(t) == t)
    ensures AgreesAt(run, t) <==> OneKind(run, t)
  {
    FoundAfterRun(run, t);
    LatestIsOfTheRun(run, t);
    if Swap(t) == t {
      OwnOpposite(run, t);
    } else {
      PureAgrees(run, t);
    }
  }

  lemma {:induction false} EmptySlots(run: seq<AuthState>, t: Triple)
    ensures SlotsOf(run, t).Members() == {} <==> t !in Triples(run) && Swap(t) !in Triples(run)
  {
    if run != [] {
      var init, a := run[..|run| - 1], run[|run| - 1];
      TriplesGrow(init, a);
      assert run == init + [a];
      EmptySlots(init, t);
      var s := SlotsOf(run, t);
      if TripleOf(a) == t && Swap(t) != t && ForTopics(a) {
        assert a.topicIds in s.topics && s.topics[a.topicIds] in s.Members();
      } else if TripleOf(a) == t || TripleOf(a) == Swap(t) {
        assert s.base == Some(a) && a in s.Members();
      }
    }
  }

  /** A query for a triple that was never granted finds nothing exactly when the opposite was never granted either. */
  lemma UngrantedIffOppositeUngranted(run: seq<AuthState>, t: Triple)
    requires IsRun(run) && t !in Triples(run)
    ensures Found(After(run), Prefix(t)) == {} <==> Swap(t) !in Triples(run)
  {
    FoundAfterRun(run, t);
    EmptySlots(run, t);
  }

  /** Where no account is ever an agent, the index is the simple map for every triple of one kind. */
  lemma DisjointAccountsAgree(run: seq<AuthState>, t: Triple)
    requires IsRun(run) && forall a, b :: a in run && b in run ==> a.account != b.agent
    requires forall a :: a in run ==> t.account != a.agent
    ensures AgreesAt(run, t) <==> OneKind(run, t)
  {
    assert forall a :: a in run ==> TripleOf(a) != Swap(t);
    LatestIsOfTheRun(run, t);
    if t in Triples(run) {
      GrantedAgrees(run, t);
    } else {
      UngrantedIffOppositeUngranted(run, t);
    }
  }

  /** Counted though its triple was granted before: it is for topics of which the index holds no grant. */
  predicate IsSurplus(before: seq<AuthState>, a: AuthState) {
    TripleOf(a) in Triples(before) && ForTopics(a) && a.topicIds !in SlotsOf(before, TripleOf(a)).topics
  }

  /** Not counted though it is the first of its triple: it is for all topics, and the opposite was granted before. */
  predicate IsLoss(before: seq<AuthState>, a: AuthState) {
    TripleOf(a) !in Triples(before) && !ForTopics(a) && Swap(TripleOf(a)) in Triples(before)
  }

  function Surpluses(run: seq<AuthState>): nat {
    if run == [] then 0
    else Surpluses(run[..|run| - 1]) + if IsSurplus(run[..|run| - 1], run[|run| - 1]) then 1 else 0
  }

  function Losses(run: seq<AuthState>): nat {
    if run == [] then 0
    else Losses(run[..|run| - 1]) + if IsLoss(run[..|run| - 1], run[|run| - 1]) then 1 else 0
  }

  lemma OpensUnless(init: seq<AuthState>, a: AuthState)
    ensures Opens(init, a) <==> IsSurplus(init, a) || (TripleOf(a) !in Triples(init) && !IsLoss(init, a))
  {
    var t := TripleOf(a);
    EmptySlots(init, t);
    SlotsAreOfTheRun(init, t);
    assert ForTopics(a) && a.topicIds in SlotsOf(init, t).topics ==> t in Triples(init);
  }

  /** For any run the counted authorizations and the losses are the triples and the surpluses. */
  lemma {:induction false} OpeningsBalance(run: seq<AuthState>)
    ensures Openings(run) + Losses(run) == |Triples(run)| + Surpluses(run)
    ensures NoSwaps(Triples(run)) ==> Losses(run) == 0
  {
    if run != [] {
      var init, a := run[..|run| - 1], run[|run| - 1];
      assert run == init + [a] && a in run;
      OpeningsBalance(init);
      OpensUnless(init, a);
      TriplesGrow(init, a);
      OneMoreTriple(Triples(init), TripleOf(a));
    }
  }

  /** The counter is the number of triples if and only if as many authorizations are surplus as are lost. */
  lemma AgentsAreTriplesIff(run: seq<AuthState>)
    requires IsRun(run)
    ensures Agents(After(run)) == |Triples(run)| <==> Surpluses(run) == Losses(run)
  {
    AgentsAfterRun(run);
    OpeningsBalance(run);
  }

  lemma OneMoreTriple(triples: set<Triple>, t: Triple)
    ensures |triples + {t}| == |triples| + if t in triples then 0 else 1
    ensures t in triples || Swap(t) !in triples ==> (NoSwaps(triples + {t}) <==> NoSwaps(triples))
    ensures t !in triples && Swap(t) in triples ==> !NoSwaps(triples + {t})
  {
    assert Swap(Swap(t)) == t;
    assert t in triples ==> triples + {t} == triples;
    if t !in triples && Swap(t) !in triples && NoSwaps(triples) {
      forall u | u in triples + {t} && Swap(u) in triples + {t} ensures Swap(u) == u {
        assert Swap(Swap(u)) == u;
      }
    }
    assert NoSwaps(triples + {t}) ==> NoSwaps(triples);
    if t !in triples && Swap(t) in triples {
      assert t in triples + {t} && Swap(t) in triples + {t};
    }
  }

  /**
   * Queries and counter both agree with the simple map if and only if no two triples are opposite, each triple's latest
   * grant is for all topics or like all its others, and no authorization is surplus.
   */
  lemma AgreesIff(run: seq<AuthState>)
    requires IsRun(run)
    ensures QueriesAgree(run) && Agents(After(run)) == |Triples(run)| <==>
      NoSwaps(Triples(run)) && (forall t :: t in Triples(run) ==> OneKind(run, t)) && Surpluses(run) == 0
  {
    QueriesAgreeIff(run);
    AgentsAreTriplesIff(run);
    OpeningsBalance(run);
  }

  /** With grants for all topics that is: no two triples are opposite, for the queries and for the counter alike. */
  lemma AgreesIffNoSwaps(run: seq<AuthState>)
    requires IsRun(run) && forall a :: a in run ==> !ForTopics(a)
    ensures QueriesAgree(run) <==> NoSwaps(Triples(run))
    ensures Agents(After(run)) == |Triples(run)| <==> NoSwaps(Triples(run))
  {
    QueriesAgreeIff(run);
    forall t | t in Triples(run) ensures OneKind(run, t) {
      LatestIsOfTheRun(run, t);
    }
    AgentsAreTriplesIff(run);
    PlainLosses(run);
  }

  lemma {:induction false} PlainLosses(run: seq<AuthState>)
    requires forall a :: a in run ==> !ForTopics(a)
    ensures Surpluses(run) == 0 && (Losses(run) == 0 <==> NoSwaps(Triples(run)))
  {
    if run != [] {
      var init, a := run[..|run| - 1], run[|run| - 1];
      assert run == init + [a] && a in run;
      PlainLosses(init);
      TriplesGrow(init, a);
      OneMoreTriple(Triples(init), TripleOf(a));
    }
  }
}
