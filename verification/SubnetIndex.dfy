/** The two-hop index of subnet states: id to event, event to state, and the references in use. */
module SubnetIndex {
  import opened Wrappers
  import opened Datastore

  /**
   * `stamp` is the timestamp and `cycle` the cycle as formatted in keys; `derived` is the id that GetId reads off the
   * state's signature, empty where it fails; `privilege` is the default privilege, a pointer in the source.
   */
  datatype Subnet = Subnet(
    id: string, derived: string, ref: string, account: string, privilege: Option<nat>, eventId: string,
    stamp: string, cycle: string, hash: string, content: string) {

    /** The id that Key fills in. */
    function OwnId(): string {
      if id == "" then derived else id
    }

    function Named(): Subnet {
      this.(id := OwnId())
    }
  }

  datatype Value = Text(s: string) | Packed(state: Subnet)

  type Store = map<Key, Value>

  function IdKey(id: string): Key {
    ["snet", "id", id]
  }

  function RefKey(ref: string): Key {
    ["snet|ref|" + ref]
  }

  /** NewKey drops an empty account. */
  function AccountKey(s: Subnet): Key {
    if s.account == "" then ["snet", "acct", s.stamp, s.id] else ["snet", "acct", s.account, s.stamp, s.id]
  }

  /** And an empty hash. */
  function ArchiveKey(s: Subnet): Key {
    if s.hash == "" then ["arc", s.cycle] else ["arc", s.cycle, s.hash]
  }

  function GetKeys(s: Subnet): seq<Key> {
    [AccountKey(s), IdKey(s.id), RefKey(s.ref), DataKey("snet", s.eventId), ArchiveKey(s)]
  }

  function ValueOf(s: Subnet, key: Key): Value {
    if key == DataKey("snet", s.eventId) then Packed(s) else if key == IdKey(s.id) then Text(s.eventId) else Text(s.id)
  }

  function Values(s: Subnet): Key -> Value {
    k => ValueOf(s, k)
  }

  /** GetSubnetStateById: from the id to the event and from the event to the state. */
  function ById(store: Store, id: string): Option<Subnet> {
    if IdKey(id) in store && store[IdKey(id)].Text? then ByEvent(store, store[IdKey(id)].s) else None
  }

  function ByEvent(store: Store, eventId: string): Option<Subnet> {
    var k := DataKey("snet", eventId);
    if k in store && store[k].Packed? then Some(store[k].state) else None
  }

  predicate RefUsed(store: Store, ref: string) {
    RefKey(ref) in store && store[RefKey(ref)].Text? && |store[RefKey(ref)].s| > 0
  }

  function Replaced(store: Store, was: Subnet, s: Subnet): Store {
    var put := store[DataKey("snet", s.eventId) := Packed(s)][IdKey(was.OwnId()) := Text(s.eventId)];
    if was.ref != s.ref then (put - {RefKey(was.ref)})[RefKey(s.ref) := Text(s.eventId)] else put
  }

  datatype Op = Create(state: Subnet) | Update(id: string, state: Subnet, create: bool)

  /** CreateSubnetState; None without an id and a signature to derive one from. */
  function Created(store: Store, s: Subnet): Option<Store> {
    if s.OwnId() == "" then None else Some(PutAll(store, GetKeys(s.Named()), Values(s.Named())))
  }

  /** A log line reads the default privileges of both. */
  predicate Replaceable(was: Subnet, s: Subnet) {
    was.privilege.Some? && s.privilege.Some?
  }

  predicate Panics(store: Store, op: Op) {
    op.Update? && ById(store, op.id).Some? && !Replaceable(ById(store, op.id).value, op.state)
  }

  /** None where the operation fails or panics. */
  function Apply(store: Store, op: Op): Option<Store> {
    match op
    case Create(s) => Created(store, s)
    case Update(id, s, create) =>
      var was := ById(store, id);
      if was.Some? then if Replaceable(was.value, s) then Some(Replaced(store, was.value, s)) else None
      else if create then Created(store, s) else None
  }

  predicate Holds(store: Store, k: Key, v: Value) {
    k in store && store[k] == v
  }

  /** The state under its event, the event under the id, and the id for the account, the reference and the archive. */
  predicate IsCreated(store: Store, s: Subnet, id: string) {
    && Holds(store, ["data", "snet", s.eventId], Packed(s.(id := id)))
    && Holds(store, ["snet", "id", id], Text(s.eventId))
    && Holds(store, if s.account == "" then ["snet", "acct", s.stamp, id] else ["snet", "acct", s.account, s.stamp, id],
             Text(id))
    && Holds(store, ["snet|ref|" + s.ref], Text(id))
    && Holds(store, if s.hash == "" then ["arc", s.cycle] else ["arc", s.cycle, s.hash], Text(id))
  }

  lemma CreatedUnderAllKeys(store: Store, s: Subnet)
    requires s.OwnId() != ""
    ensures IsCreated(Created(store, s).value, s, if s.id == "" then s.derived else s.id)
  {
    var named := s.Named();
    var keys := GetKeys(named);
    forall k | k in keys ensures Holds(Created(store, s).value, k, ValueOf(named, k)) {
      PutAllPuts(store, keys, Values(named), k);
    }
    assert keys[0] in keys && keys[1] in keys && keys[2] in keys && keys[3] in keys && keys[4] in keys;
    assert |keys[2]| == 1 && |keys[1]| == 3 && keys[1][1] == "id" && keys[4][0] == "arc" && keys[3][0] == "data";
  }

  /** The new state under its event, its event under the id of the old one, and its reference in place of the old. */
  predicate IsUpdated(before: Store, after: Store, was: Subnet, s: Subnet) {
    && was.privilege.Some? && s.privilege.Some?
    && Holds(after, ["data", "snet", s.eventId], Packed(s))
    && Holds(after, ["snet", "id", if was.id == "" then was.derived else was.id], Text(s.eventId))
    && (was.ref != s.ref ==>
          Holds(after, ["snet|ref|" + s.ref], Text(s.eventId)) && ["snet|ref|" + was.ref] !in after)
    && (was.ref == s.ref ==> (["snet|ref|" + s.ref] in after <==> ["snet|ref|" + s.ref] in before))
  }

  class StateStore {
    var data: Store

    constructor ()
      ensures data == map[]
    {
      data := map[];
    }

    method GetSubnetStateById(id: string) returns (state: Option<Subnet>)
      ensures state == ById(data, id)
    {
      if IdKey(id) !in data || !data[IdKey(id)].Text? {
        return None;
      }
      var event := data[IdKey(id)].s;
      if DataKey("snet", event) !in data || !data[DataKey("snet", event)].Packed? {
        return None;
      }
      state := Some(data[DataKey("snet", event)].state);
    }

    method RefExists(ref: string) returns (exists_: bool)
      ensures exists_ <==> RefUsed(data, ref)
    {
      if RefKey(ref) !in data || !data[RefKey(ref)].Text? {
        return false;
      }
      exists_ := |data[RefKey(ref)].s| > 0;
    }

    method CreateSubnetState(newState: Subnet) returns (ok: bool)
      modifies this
      ensures ok <==> Created(old(data), newState).Some?
      ensures ok <==> newState.id != "" || newState.derived != ""
      ensures ok ==> IsCreated(data, newState, if newState.id == "" then newState.derived else newState.id)
      ensures data == if ok then Created(old(data), newState).value else old(data)
    {
      var state := newState;
      if state.id == "" {
        if state.derived == "" {
          return false;
        }
        state := state.(id := state.derived);
      }
      PutEach(GetKeys(state), state);
      CreatedUnderAllKeys(old(data), newState);
      return true;
    }

    /** The loop over the keys. */
    method PutEach(keys: seq<Key>, state: Subnet)
      modifies this
      ensures data == PutAll(old(data), keys, Values(state))
    {
      for i := 0 to |keys|
        invariant data == PutAll(old(data), keys[..i], Values(state))
      {
        assert keys[..i + 1][..i] == keys[..i];
        if keys[i] == DataKey("snet", state.eventId) {
          data := data[keys[i] := Packed(state)];
          continue;
        }
        if keys[i] == IdKey(state.id) {
          data := data[keys[i] := Text(state.eventId)];
          continue;
        }
        data := data[keys[i] := Text(state.id)];
      }
      assert keys[..|keys|] == keys;
    }

    method UpdateSubnetState(id: string, newState: Subnet, create: bool) returns (ok: bool, crashed: bool)
      modifies this
      ensures ok <==> Apply(old(data), Update(id, newState, create)).Some?
      ensures crashed <==> Panics(old(data), Update(id, newState, create))
      ensures ok && ById(old(data), id).Some? ==> IsUpdated(old(data), data, ById(old(data), id).value, newState)
      ensures data == if ok then Apply(old(data), Update(id, newState, create)).value else old(data)
    {
      crashed := false;
      var oldState := GetSubnetStateById(id);
      if oldState.None? {
        if create {
          ok := CreateSubnetState(newState);
          return;
        }
        return false, false;
      }
      if oldState.value.privilege.None? || newState.privilege.None? {
        return false, true;
      }
      data := data[DataKey("snet", newState.eventId) := Packed(newState)];
      data := data[IdKey(oldState.value.OwnId()) := Text(newState.eventId)];
      RefKeys(oldState.value.ref, newState.ref);
      if oldState.value.ref != newState.ref {
        data := data - {RefKey(oldState.value.ref)};
        data := data[RefKey(newState.ref) := Text(newState.eventId)];
      }
      ok := true;
    }
  }

  // ---------------------------------------------------------------------------------------------
  // The simple map from id to latest state.

  type Current = map<string, Subnet>

  predicate TakesEffect(current: Current, op: Op) {
    match op
    case Create(s) => s.OwnId() != ""
    case Update(id, s, create) =>
      if id in current then Replaceable(current[id], s) else create && s.OwnId() != ""
  }

  /** The id under which a state goes: an update goes where the state that it found belongs. */
  function Target(current: Current, op: Op): string {
    if op.Update? && op.id in current then current[op.id].OwnId() else op.state.OwnId()
  }

  /** A created state is stored with its id, an update as it comes. */
  function StoredState(current: Current, op: Op): Subnet {
    if op.Update? && op.id in current then op.state else op.state.Named()
  }

  function Track(current: Current, op: Op): Current {
    if TakesEffect(current, op) then current[Target(current, op) := StoredState(current, op)] else current
  }

  function CurrentAfter(run: seq<Op>): Current {
    if run == [] then map[] else Track(CurrentAfter(run[..|run| - 1]), run[|run| - 1])
  }

  function Next(store: Store, op: Op): Store {
    var after := Apply(store, op);
    if after.Some? then after.value else store
  }

  function After(run: seq<Op>): Store {
    if run == [] then map[] else Next(After(run[..|run| - 1]), run[|run| - 1])
  }

  predicate NamesEvent(op: Op) {
    op.state.eventId != ""
  }

  predicate FreshEvents(run: seq<Op>) {
    forall i, j :: 0 <= i < j < |run| ==> run[i].state.eventId != run[j].state.eventId
  }

  predicate IsRun(run: seq<Op>) {
    (forall op :: op in run ==> NamesEvent(op)) && FreshEvents(run)
  }

  // ---------------------------------------------------------------------------------------------
  // One operation.

  lemma RefKeys(r: string, s: string)
    ensures RefKey(r) == RefKey(s) <==> r == s
  {
    assert RefKey(r)[0][9..] == r && RefKey(s)[0][9..] == s;
  }

  /** What a creation leaves under the three kinds of keys. */
  lemma CreateAt(store: Store, s: Subnet, id: string, eventId: string, ref: string)
    ensures var after := PutAll(store, GetKeys(s), Values(s));
      && Same(after, if id == s.id then store[IdKey(id) := Text(s.eventId)] else store, IdKey(id))
      && Same(after, if eventId == s.eventId then store[DataKey("snet", eventId) := Packed(s)] else store,
        DataKey("snet", eventId))
      && Same(after, if ref == s.ref then store[RefKey(ref) := Text(s.id)] else store, RefKey(ref))
  {
    var keys := GetKeys(s);
    PutAllPuts(store, keys, Values(s), IdKey(id));
    PutAllPuts(store, keys, Values(s), DataKey("snet", eventId));
    PutAllPuts(store, keys, Values(s), RefKey(ref));
    RefKeys(ref, s.ref);
    assert keys[1] == IdKey(s.id) && keys[2] == RefKey(s.ref) && keys[3] == DataKey("snet", s.eventId);
  }

  /** Two stores agree at a key. */
  predicate Same(a: Store, b: Store, k: Key) {
    (k in a <==> k in b) && (k in a ==> a[k] == b[k])
  }

  /** What an update of a known subnet leaves under the three kinds of keys. */
  lemma ReplacedAt(store: Store, was: Subnet, s: Subnet, id: string, eventId: string, ref: string)
    ensures var after := Replaced(store, was, s);
      && Same(after, if id == was.OwnId() then store[IdKey(id) := Text(s.eventId)] else store, IdKey(id))
      && Same(after, if eventId == s.eventId then store[DataKey("snet", eventId) := Packed(s)] else store,
        DataKey("snet", eventId))
      && Same(after, if was.ref == s.ref then store else if ref == s.ref then store[RefKey(ref) := Text(s.eventId)]
           else if ref == was.ref then store - {RefKey(ref)} else store, RefKey(ref))
  {
    RefKeys(ref, s.ref);
    RefKeys(ref, was.ref);
  }

  // ---------------------------------------------------------------------------------------------
  // Any run.

  /** The two hops lead from the id to its latest state. */
  predicate HoldsId(store: Store, current: Current, id: string) {
    && (IdKey(id) in store <==> id in current)
    && (id in current ==>
         store[IdKey(id)] == Text(current[id].eventId) && ByEvent(store, current[id].eventId) == Some(current[id]))
  }

  lemma {:induction false} CurrentIsOfTheRun(run: seq<Op>, id: string)
    ensures id in CurrentAfter(run) ==>
      exists i :: 0 <= i < |run| && run[i].state.eventId == CurrentAfter(run)[id].eventId
  {
    if run != [] && id in CurrentAfter(run) {
      var init, op := run[..|run| - 1], run[|run| - 1];
      CurrentIsOfTheRun(init, id);
      if CurrentAfter(run)[id].eventId != op.state.eventId {
        var i :| 0 <= i < |init| && init[i].state.eventId == CurrentAfter(init)[id].eventId;
        assert run[i].state.eventId == CurrentAfter(run)[id].eventId;
      }
    }
  }

  lemma StepHoldsId(store: Store, current: Current, op: Op, id: string)
    requires HoldsId(store, current, id) && (op.Update? ==> HoldsId(store, current, op.id))
    requires id in current ==> current[id].eventId != op.state.eventId
    ensures HoldsId(Next(store, op), Track(current, op), id)
  {
    var s, now := op.state, if id in current then current[id].eventId else op.state.eventId;
    CreateAt(store, s.Named(), id, s.eventId, "");
    CreateAt(store, s.Named(), id, now, "");
    if op.Update? && op.id in current {
      ReplacedAt(store, current[op.id], s, id, s.eventId, "");
      ReplacedAt(store, current[op.id], s, id, now, "");
    }
  }

  /** After any run GetSubnetStateById answers with the latest state of the id. */
  lemma {:induction false} LatestById(run: seq<Op>, id: string)
    requires FreshEvents(run)
    ensures HoldsId(After(run), CurrentAfter(run), id)
    ensures ById(After(run), id) == if id in CurrentAfter(run) then Some(CurrentAfter(run)[id]) else None
  {
    if run != [] {
      var init, op := run[..|run| - 1], run[|run| - 1];
      LatestById(init, id);
      if op.Update? {
        LatestById(init, op.id);
      }
      CurrentIsOfTheRun(init, id);
      StepHoldsId(After(init), CurrentAfter(init), op, id);
    }
  }

  /** Updates under the states' own ids keep every state under its own id, as the plain map has it. */
  lemma {:induction false} OwnIdsKept(run: seq<Op>)
    requires forall op :: op in run && op.Update? ==> op.id == op.state.OwnId()
    ensures forall id :: id in CurrentAfter(run) ==> CurrentAfter(run)[id].OwnId() == id
  {
    if run != [] {
      var init, op := run[..|run| - 1], run[|run| - 1];
      assert op in run && forall o :: o in init ==> o in run;
      OwnIdsKept(init);
    }
  }

  /** An operation stores its state under its event and leaves the other events' states. */
  lemma StepData(store: Store, current: Current, op: Op, eventId: string)
    requires op.Update? ==> HoldsId(store, current, op.id)
    ensures eventId == op.state.eventId && TakesEffect(current, op) ==>
      ByEvent(Next(store, op), eventId) == Some(StoredState(current, op))
    ensures eventId != op.state.eventId ==> ByEvent(Next(store, op), eventId) == ByEvent(store, eventId)
  {
    CreateAt(store, op.state.Named(), "", eventId, "");
    if op.Update? && op.id in current {
      ReplacedAt(store, current[op.id], op.state, "", eventId, "");
    }
  }

  /** Every state that was ever stored stays readable under its event. */
  lemma {:induction false} EveryVersionStays(run: seq<Op>, i: nat)
    requires FreshEvents(run) && i < |run| && TakesEffect(CurrentAfter(run[..i]), run[i])
    ensures ByEvent(After(run), run[i].state.eventId) == Some(StoredState(CurrentAfter(run[..i]), run[i]))
  {
    var init, op := run[..|run| - 1], run[|run| - 1];
    if op.Update? {
      LatestById(init, op.id);
    }
    StepData(After(init), CurrentAfter(init), op, run[i].state.eventId);
    if i < |run| - 1 {
      assert init[..i] == run[..i];
      EveryVersionStays(init, i);
      assert run[i].state.eventId != op.state.eventId;
    }
  }

  /**
   * An update made under another id than the state's own is found, but the next one is not: it is stored under the
   * other id. Without a default privilege on both sides nothing is stored.
   */
  lemma NextUpdateReaches(store: Store, id: string, was: Subnet, s: Subnet, next: Subnet)
    requires ById(store, id) == Some(was) && was.OwnId() == id && s.eventId != next.eventId
    ensures var store1 := Next(store, Update(id, s, true));
      var store2 := Next(store1, Update(id, next, true));
      if Replaceable(was, s) then
        ById(store1, id) == Some(s) && (ById(store2, id) == Some(next) <==> s.OwnId() == id && Replaceable(s, next))
      else store1 == store
  {
  }

  /** A created subnet stays listed under its account, by id. */
  lemma {:induction false} StaysListed(run: seq<Op>, i: nat)
    requires i < |run| && run[i].Create? && run[i].state.OwnId() != ""
    ensures var s := run[i].state;
      var own := if s.id == "" then s.derived else s.id;
      (if s.account == "" then ["snet", "acct", s.stamp, own] else ["snet", "acct", s.account, s.stamp, own])
        in After(run)
  {
    var init, op := run[..|run| - 1], run[|run| - 1];
    var s := op.state.Named();
    var k := AccountKey(run[i].state.Named());
    PutAllPuts(After(init), GetKeys(s), Values(s), k);
    assert GetKeys(s)[0] == AccountKey(s);
    if i < |run| - 1 {
      StaysListed(init, i);
    }
  }

  // ---------------------------------------------------------------------------------------------
  // References.

  function Refs(current: Current): set<string> {
    set id | id in current :: current[id].ref
  }

  ghost predicate RefsAgree(store: Store, current: Current) {
    forall ref: string :: RefUsed(store, ref) <==> ref in Refs(current)
  }

  /** The references of the other subnets. */
  function Others(current: Current, id: string): set<string> {
    Refs(current - {id})
  }

  /** The references that the operation deletes: that of the state it found, unless it is kept. */
  function Dropped(current: Current, op: Op): set<string> {
    if op.Update? && op.id in current then {current[op.id].ref} - {op.state.ref} else {}
  }

  /**
   * The operation deletes exactly the references that fall out of use: none that another subnet still has, and that
   * of the state which it replaces, if nobody else has it.
   */
  predicate FreesUnused(current: Current, op: Op) {
    var others := Others(current, Target(current, op));
    TakesEffect(current, op) ==>
      Dropped(current, op) !! others &&
      Refs(current) - others - {op.state.ref} <= Dropped(current, op)
  }

  lemma RefsSplit(current: Current, id: string)
    ensures Others(current, id) <= Refs(current)
    ensures Refs(current) == Others(current, id) + if id in current then {current[id].ref} else {}
  {
    forall r | r in Refs(current) ensures r in Others(current, id) || (id in current && r == current[id].ref) {
      var i :| i in current && current[i].ref == r;
      assert i != id ==> i in current - {id};
    }
  }

  lemma RefsAfter(current: Current, id: string, s: Subnet)
    ensures Refs(current[id := s]) == Others(current, id) + {s.ref}
  {
    RefsSplit(current[id := s], id);
    assert current[id := s] - {id} == current - {id};
  }

  /** Which references are in use after an operation. */
  lemma RefUsedNext(store: Store, current: Current, op: Op, ref: string)
    requires NamesEvent(op) && (op.Update? ==> HoldsId(store, current, op.id))
    requires op.Update? && op.id in current ==> RefUsed(store, current[op.id].ref)
    ensures RefUsed(Next(store, op), ref) <==>
      if TakesEffect(current, op) then ref == op.state.ref || (RefUsed(store, ref) && ref !in Dropped(current, op))
      else RefUsed(store, ref)
  {
    var s := op.state;
    CreateAt(store, s.Named(), "", s.eventId, ref);
    if op.Update? && op.id in current {
      ReplacedAt(store, current[op.id], s, "", s.eventId, ref);
    }
  }

  lemma LeftIsNeeded(refs: set<string>, others: set<string>, dropped: set<string>, ref: string)
    requires others <= refs && dropped <= refs && ref !in dropped
    ensures refs - dropped + {ref} == others + {ref} <==> dropped !! others && refs - others - {ref} <= dropped
  {
    if refs - dropped + {ref} == others + {ref} {
      forall r | r in refs - others - {ref} ensures r in dropped {
        assert r !in others + {ref};
      }
      forall r | r in dropped ensures r !in others {
        assert r !in refs - dropped + {ref};
      }
    }
  }

  lemma AgreeIffSame(store: Store, used: set<string>, current: Current)
    requires forall ref: string :: RefUsed(store, ref) <==> ref in used
    ensures RefsAgree(store, current) <==> used == Refs(current)
  {
    if RefsAgree(store, current) {
      forall ref: string ensures ref in used <==> ref in Refs(current) {
        assert RefUsed(store, ref) <==> ref in used;
      }
    }
  }

  /** One operation keeps the references right exactly when it frees what falls out of use. */
  lemma StepKeepsRefs(store: Store, current: Current, op: Op)
    requires NamesEvent(op) && (op.Update? ==> HoldsId(store, current, op.id)) && RefsAgree(store, current)
    ensures RefsAgree(Next(store, op), Track(current, op)) <==> FreesUnused(current, op)
  {
    var target, refs, dropped := Target(current, op), Refs(current), Dropped(current, op);
    RefsSplit(current, target);
    RefsAfter(current, target, StoredState(current, op));
    assert op.Update? && op.id in current ==> current[op.id].ref in refs;
    var used := if TakesEffect(current, op) then refs - dropped + {op.state.ref} else refs;
    forall ref: string ensures RefUsed(Next(store, op), ref) <==> ref in used {
      assert RefUsed(store, ref) <==> ref in refs;
      assert op.Update? && op.id in current ==> (RefUsed(store, current[op.id].ref) <==> current[op.id].ref in refs);
      RefUsedNext(store, current, op, ref);
    }
    AgreeIffSame(Next(store, op), used, Track(current, op));
    LeftIsNeeded(refs, Others(current, target), dropped, op.state.ref);
  }

  predicate FreesUnusedThroughout(run: seq<Op>) {
    run == [] ||
      (FreesUnusedThroughout(run[..|run| - 1]) && FreesUnused(CurrentAfter(run[..|run| - 1]), run[|run| - 1]))
  }

  ghost predicate RefsAgreeThroughout(run: seq<Op>) {
    RefsAgree(After(run), CurrentAfter(run)) && (run == [] || RefsAgreeThroughout(run[..|run| - 1]))
  }

  /**
   * RefExists tells the references of the current subnets after every step exactly when every step frees what falls out
   * of use.
   */
  lemma {:induction false} RefsAgreeIffFreed(run: seq<Op>)
    requires IsRun(run)
    ensures RefsAgreeThroughout(run) <==> FreesUnusedThroughout(run)
  {
    if run != [] {
      var init, op := run[..|run| - 1], run[|run| - 1];
      assert op in run && forall o :: o in init ==> o in run;
      RefsAgreeIffFreed(init);
      if op.Update? {
        LatestById(init, op.id);
      }
      if RefsAgree(After(init), CurrentAfter(init)) {
        StepKeepsRefs(After(init), CurrentAfter(init), op);
      }
    }
  }

  /** Ids are created once and updated by states that belong to them, and a new reference is not in use. */
  predicate NewRefsUnused(run: seq<Op>) {
    run == [] ||
    (NewRefsUnused(run[..|run| - 1]) && NewRefUnused(CurrentAfter(run[..|run| - 1]), run[|run| - 1]))
  }

  predicate NewRefUnused(current: Current, op: Op) {
    var own := op.state.OwnId();
    && (if op.Create? then own !in current else op.id == own)
    && (op.state.ref in Refs(current) ==> own in current && current[own].ref == op.state.ref)
  }

  predicate RefsDistinct(current: Current) {
    forall a, b :: a in current && b in current && a != b ==> current[a].ref != current[b].ref
  }

  lemma {:induction false} UnusedRefsStayDistinct(run: seq<Op>)
    requires NewRefsUnused(run)
    ensures RefsDistinct(CurrentAfter(run)) && FreesUnusedThroughout(run)
    ensures forall id :: id in CurrentAfter(run) ==> CurrentAfter(run)[id].OwnId() == id
  {
    if run != [] {
      var init, op := run[..|run| - 1], run[|run| - 1];
      UnusedRefsStayDistinct(init);
      UnusedRefStaysDistinct(CurrentAfter(init), op);
    }
  }

  lemma UnusedRefStaysDistinct(current: Current, op: Op)
    requires RefsDistinct(current) && NewRefUnused(current, op)
    requires forall id :: id in current ==> current[id].OwnId() == id
    ensures RefsDistinct(Track(current, op)) && FreesUnused(current, op)
    ensures forall id :: id in Track(current, op) ==> Track(current, op)[id].OwnId() == id
  {
    var own := op.state.OwnId();
    assert Target(current, op) == own;
    RefsSplit(current, own);
    assert own in current ==> current[own].ref !in Others(current, own);
    assert forall id :: id in current ==> current[id].ref in Refs(current);
  }

  /** So with unused new references RefExists is true exactly for the references of current subnets. */
  lemma RefExistsForCurrent(run: seq<Op>, ref: string)
    requires IsRun(run) && NewRefsUnused(run)
    ensures RefUsed(After(run), ref) <==> exists id :: id in CurrentAfter(run) && CurrentAfter(run)[id].ref == ref
  {
    UnusedRefsStayDistinct(run);
    RefsAgreeIffFreed(run);
    assert RefsAgree(After(run), CurrentAfter(run));
    assert RefUsed(After(run), ref) <==> ref in Refs(CurrentAfter(run));
    if id :| id in CurrentAfter(run) && CurrentAfter(run)[id].ref == ref {
      assert ref in Refs(CurrentAfter(run));
    }
  }
}
