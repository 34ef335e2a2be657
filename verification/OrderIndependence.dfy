/** When the subnet state a node ends with does not depend on the order in which events are delivered. */
module OrderIndependence {
  import opened Wrappers
  import opened Ordering
  import opened Entities
  import opened DataStates
  import opened EventProcessing
  import opened EventHandling
  import EventEffects
  import EventRuns
  import StateProgress

  /** The order in which events replace each other: by time, then by hash. */
  predicate Before(f: map<string, Event>, j: string, k: string)
    requires j in f && k in f
  {
    IsMoreRecentEvent(f[j].hash, ToInt(f[j].timestamp), f[k].hash, ToInt(f[k].timestamp))
  }

  predicate NotAfter(f: map<string, Event>, j: string, k: string)
    requires j in f && k in f
  {
    j == k || Before(f, j, k)
  }

  lemma BeforeIsStrict(f: map<string, Event>, j: string, k: string)
    requires j in f && k in f
    ensures Before(f, j, k) ==> j != k && !Before(f, k, j)
  {
    MoreRecentIsStrictTotalOrder(f[j].hash, ToInt(f[j].timestamp), f[k].hash, ToInt(f[k].timestamp), "", 0);
  }

  lemma BeforeIsTransitive(f: map<string, Event>, i: string, j: string, k: string)
    requires i in f && j in f && k in f && NotAfter(f, i, j) && Before(f, j, k)
    ensures Before(f, i, k)
  {
    MoreRecentIsStrictTotalOrder(f[i].hash, ToInt(f[i].timestamp), f[j].hash, ToInt(f[j].timestamp),
                                 f[k].hash, ToInt(f[k].timestamp));
  }

  /** The events of one subnet, closed under previous events; no two share both time and hash. */
  ghost predicate WellFormed(f: map<string, Event>, self: string) {
    && (forall k | k in f :: IsMember(f, self, k))
    && (forall j, k | j in f && k in f && j != k :: Before(f, j, k) || Before(f, k, j))
  }

  ghost predicate IsMember(f: map<string, Event>, self: string, k: string)
    requires k in f
  {
    var e := f[k];
    && e.id == k != "" && e.signed && e.error == "" && e.isValid != Some(false)
    && e.validator != self && IsSubnetEvent(e) && e.authEvent.id == ""
    && (e.previousEvent.id != "" ==> e.previousEvent.id in f && Before(f, e.previousEvent.id, k))
  }

  /**
   * s happened after the event that k builds on, but before k, and the code sees it so: it compares the hash of s
   * with the id of the event that k builds on.
   */
  predicate Interlopes(f: map<string, Event>, s: string, k: string)
    requires s in f && k in f
  {
    var p := f[k].previousEvent.id;
    && p in f && p != "" && Before(f, p, s) && Before(f, s, k)
    && f[s].hash != p && !IsMoreRecentEvent(f[s].hash, ToInt(f[s].timestamp), p, ToInt(f[p].timestamp))
  }

  ghost predicate IsChainInTime(f: map<string, Event>) {
    forall s, k | s in f && k in f :: !Interlopes(f, s, k)
  }

  /** The data of k can replace those of j: they name their subnet, and both have a default privilege. */
  predicate Replaces(f: map<string, Event>, k: string, j: string)
    requires j in f && k in f
  {
    var data := f[k].payload.data;
    data.id != "" && data.privilege.Some? && f[j].payload.data.privilege.Some?
  }

  /** Only the oldest event may lack an id in its data, and a privilege only a single one. */
  ghost predicate UpdatesAreComplete(f: map<string, Event>) {
    forall j, k | j in f && k in f && Before(f, j, k) :: Replaces(f, k, j)
  }

  /** An honest environment: everything checks out, and a missing previous event can be fetched. */
  ghost predicate Honest(f: map<string, Event>, entity: string, a: HandlerAnswers, n: Node, e: Event) {
    && a.process.valid && a.process.encodes && a.dataError == "" && !a.stateBroken && a.broken == {}
    && (a.process.agent == "" || a.process.signer == Some(a.process.agent))
    && EntityId(a, e) == entity
    && (e.previousEvent.id != "" && e.previousEvent.id !in n.events ==>
          a.process.peerPrevious.Some? && IsCopy(a.process.peerPrevious.value.event, f, e.previousEvent.id))
  }

  predicate IsCopy(e: Event, f: map<string, Event>, k: string) {
    k in f && e.id == k && e.timestamp == f[k].timestamp && e.hash == f[k].hash && e.signed && e.synced == Some(true) &&
      e.isValid != Some(false)
  }

  /** The event itself, and at most a copy of the one it builds on. */
  predicate Copies(f: map<string, Event>, events: map<string, Event>, k: string)
    requires k in f
  {
    forall j | j in events && j != k :: j == f[k].previousEvent.id && IsCopy(events[j], f, j)
  }

  predicate Stored(n: Node, f: map<string, Event>, k: string)
    requires k in n.events
  {
    k in f && n.events[k].id == k && n.events[k].timestamp == f[k].timestamp && n.events[k].hash == f[k].hash &&
      n.events[k].signed
  }

  predicate IsLatest(f: map<string, Event>, delivered: set<string>, k: string) {
    k in delivered && k in f && forall j | j in delivered && j in f :: NotAfter(f, j, k)
  }

  /** The node stores copies of the family, none later than the latest delivered event, whose data are its state. */
  ghost predicate UpToDate(f: map<string, Event>, entity: string, n: Node, delivered: set<string>) {
    var path := Path(SubnetModel, entity);
    && delivered <= n.events.Keys
    && (forall k | k in n.events :: Stored(n, f, k))
    && (if delivered == {} then path !in n.states && n.events == map[]
        else path in n.states && IsLatest(f, delivered, n.states[path].eventId)
             && n.states[path] == StateOf(f, entity, n.states[path].eventId)
             && forall j | j in n.events :: NotAfter(f, j, n.states[path].eventId))
  }

  function StateOf(f: map<string, Event>, entity: string, k: string): Entity
    requires k in f
  {
    EntityData(SubnetKind, f[k]).(id := entity)
  }

  /** The delivered event replaces the state, if there is one. */
  predicate IsRecent(f: map<string, Event>, entity: string, n: Node, k: string)
    requires k in f
  {
    var path := Path(SubnetModel, entity);
    path in n.states && n.states[path].eventId in f ==> Before(f, n.states[path].eventId, k)
  }

  ghost predicate NoneBad(n: Node) {
    forall k | k in n.events :: n.events[k].isValid != Some(false)
  }

  /** The state's event lies between the delivered one and the previous event it names, which is stored. */
  ghost predicate Blocked(f: map<string, Event>, entity: string, n: Node, k: string)
    requires k in f
  {
    var path := Path(SubnetModel, entity);
    path in n.states && n.states[path].eventId in f && f[k].previousEvent.id in n.events &&
    Interlopes(f, n.states[path].eventId, k)
  }

  /** If there is a state that the delivered event replaces, its data can replace those of the state. */
  ghost predicate Fits(f: map<string, Event>, entity: string, n: Node, k: string)
    requires k in f
  {
    var path := Path(SubnetModel, entity);
    path in n.states && n.states[path].eventId in f && IsRecent(f, entity, n, k) ==>
      Replaces(f, k, n.states[path].eventId)
  }

  // ---------------------------------------------------------------------------------------------
  // One delivery.

  ghost predicate OneSubnet(f: map<string, Event>, self: string, entity: string, a: HandlerAnswers, n: Node,
                            delivered: set<string>, k: string) {
    WellFormed(f, self) && entity != "" && k in f && Honest(f, entity, a, n, f[k]) && UpToDate(f, entity, n, delivered)
  }

  /** The buffer after the previous event is known: the event itself, and a fetched previous event. */
  ghost predicate PreviousKnown(f: map<string, Event>, n: Node, e: Event, s: Stage<Previous>)
    requires e.id in f
  {
    && s.Go? && s.next.upToDate && s.buffer.current == map[]
    && e.id in s.buffer.events && s.buffer.events[e.id] == e
    && Copies(f, s.buffer.events, e.id)
    && s.next.event == StoredPrevious(n, e)
  }

  lemma PreviousIsKnown(f: map<string, Event>, self: string, entity: string, a: HandlerAnswers, n: Node,
                        delivered: set<string>, k: string, b: Buffer)
    requires OneSubnet(f, self, entity, a, n, delivered, k)
    requires b.events == map[k := f[k]] && b.current == map[]
    ensures f[k].id == k && PreviousKnown(f, n, f[k], KnowPrevious(a.process, Store(n.events, a.broken), f[k], b))
  {
    var e := f[k];
    assert IsMember(f, self, k);
    if e.previousEvent.id != "" && e.previousEvent.id !in n.events {
      BeforeIsStrict(f, e.previousEvent.id, k);
      var peer := a.process.peerPrevious.value;
      HistoricsKeepTheRest(b.Written(peer.event), e.previousEvent, peer.states);
    }
  }

  /** The local data that the handler reads: nothing, or the current state with its stored event. */
  lemma LocalDataOf(f: map<string, Event>, self: string, entity: string, a: HandlerAnswers, n: Node,
                    delivered: set<string>, k: string)
    requires OneSubnet(f, self, entity, a, n, delivered, k)
    ensures var path := Path(SubnetModel, entity);
      var data := LocalDataFor(SubnetKind, a, n, LocalState(SubnetKind, a, n, f[k]).state);
      if path !in n.states then data == LocalData(None, None)
      else
        var c := n.states[path].eventId;
        c in f && c in n.events && n.states[path].id != "" &&
        data == LocalData(Some(n.states[path]), Some(StateEvent(c, f[c].hash, f[c].timestamp)))
  {
    var path := Path(SubnetModel, entity);
    if path in n.states {
      var c := n.states[path].eventId;
      assert c in n.events && Stored(n, f, c) && IsMember(f, self, c);
    }
  }

  /** Comparing with the state's event: newer by time, and bad exactly when it interlopes on a stored previous event. */
  lemma CompareInFamily(f: map<string, Event>, self: string, n: Node, c: string, k: string)
    requires WellFormed(f, self) && c in f && k in f && f[k].previousEvent.id != c
    requires forall j | j in n.events :: Stored(n, f, j) && NotAfter(f, j, c)
    ensures var p := f[k].previousEvent.id;
      Compare(StateEvent(c, f[c].hash, f[c].timestamp), StoredPrevious(n, f[k]), f[k])
      == Recency(Before(f, c, k), p in n.events && Interlopes(f, c, k))
  {
    var p := f[k].previousEvent.id;
    assert IsMember(f, self, c) && IsMember(f, self, k);
    if p in n.events {
      assert Stored(n, f, p) && IsMember(f, self, p);
    }
  }

  function StoredPrevious(n: Node, e: Event): Option<Event> {
    if e.previousEvent.id in n.events && e.previousEvent.id != "" then Some(n.events[e.previousEvent.id]) else None
  }

  lemma RecencyAgainst(f: map<string, Event>, self: string, entity: string, n: Node, state: Entity, k: string)
    requires WellFormed(f, self) && k in f && state.eventId in f && state.id != ""
    requires forall j | j in n.events :: Stored(n, f, j) && NotAfter(f, j, state.eventId)
    ensures var c := state.eventId;
      var data := LocalData(Some(state), Some(StateEvent(c, f[c].hash, f[c].timestamp)));
      KnowRecency(data, StoredPrevious(n, f[k]), f[k]) ==
      Some(Recency(Before(f, c, k), f[k].previousEvent.id in n.events && Interlopes(f, c, k)))
  {
    var c, p := state.eventId, f[k].previousEvent.id;
    assert IsMember(f, self, k) && IsMember(f, self, c);
    if c == p {
      BeforeIsStrict(f, c, c);
    } else {
      CompareInFamily(f, self, n, c, k);
    }
  }

  /** Whether the delivered event is recent, and whether it is bad. */
  lemma RecencyOf(f: map<string, Event>, self: string, entity: string, a: HandlerAnswers, n: Node,
                  delivered: set<string>,
                  k: string)
    requires OneSubnet(f, self, entity, a, n, delivered, k)
    ensures var data := LocalDataFor(SubnetKind, a, n, LocalState(SubnetKind, a, n, f[k]).state);
      KnowRecency(data, StoredPrevious(n, f[k]), f[k]) ==
      Some(Recency(IsRecent(f, entity, n, k), Blocked(f, entity, n, k)))
  {
    var path := Path(SubnetModel, entity);
    LocalDataOf(f, self, entity, a, n, delivered, k);
    if path in n.states {
      RecencyAgainst(f, self, entity, n, n.states[path], k);
    }
  }

  /** ProcessEvent on an honest delivery. */
  lemma ProcessHonest(f: map<string, Event>, self: string, entity: string, a: HandlerAnswers, n: Node,
                      delivered: set<string>, k: string)
    returns (o: Outcome, b: Buffer)
    requires OneSubnet(f, self, entity, a, n, delivered, k)
    ensures var data := LocalDataFor(SubnetKind, a, n, LocalState(SubnetKind, a, n, f[k]).state);
      EMPTY.WithEvent(f[k]).Some? &&
        (o, b) == Process(self, a.process, Store(n.events, a.broken), f[k], false, data, EMPTY.WithEvent(f[k]).value)
    ensures var path := Path(SubnetModel, entity);
      o == if Blocked(f, entity, n, k) then Returned(false, false, Some(NO_AUTHORIZATION), true, "bad request")
           else Returned(true, true, Some(NO_AUTHORIZATION),
                         IsRecent(f, entity, n, k), "")
    ensures b.current == map[] && k in b.events
    ensures Copies(f, b.events, k)
    ensures b.events[k] == if Blocked(f, entity, n, k) then Overlay(Mark(k, "bad request", false), f[k]) else f[k]
  {
    var e := f[k];
    assert IsMember(f, self, k);
    var store := Store(n.events, a.broken);
    var data := LocalDataFor(SubnetKind, a, n, LocalState(SubnetKind, a, n, e).state);
    var b0 := EMPTY.WithEvent(e).value;
    AddEventIsIdempotent(EMPTY, e);
    assert Admission(a.process, e, false, b0) == Go((), b0);
    PreviousIsKnown(f, self, entity, a, n, delivered, k, b0);
    var p := KnowPrevious(a.process, store, e, b0);
    var auths := Auths(None, NO_AUTHORIZATION, NO_AUTHORIZATION, true);
    PreviousQueuesNoAuth(a.process, store, e, b0);
    assert KnowAuth(a.process, store, e, false, true, p.buffer) == Go(auths, p.buffer);
    RecencyOf(f, self, entity, a, n, delivered, k);
    assert p.next.event == StoredPrevious(n, e);
    var conclusion := Conclude(a.process, store, e, false, data, p.next, auths, p.buffer);
    o, b := conclusion.0, conclusion.1;
  }

  /** The buffer that is committed when the event is applied. */
  lemma ApplyHonest(f: map<string, Event>, self: string, entity: string, a: HandlerAnswers, k: string, isRecent: bool,
                    b: Buffer)
    returns (b1: Buffer)
    requires WellFormed(f, self) && k in f && EntityId(a, f[k]) == entity
    requires b.current == map[] && k in b.events && b.events[k] == f[k]
    requires Copies(f, b.events, k)
    ensures Apply(SubnetKind, a, f[k], isRecent, "", b) == Go((), b1)
    ensures b1.events.Keys == b.events.Keys && b1.events[k] == Overlay(Mark(k, "", true), f[k])
    ensures forall j | j in b1.events && j != k :: b1.events[j] == b.events[j]
    ensures !isRecent ==>
      var path := Path(SubnetModel, f[k].payload.data.id);
      path in b1.historic && b1.historic[path] == EntityValue(EventEffects.Completed(SubnetKind, f[k]))
    ensures b1.current ==
      if isRecent then map[Path(SubnetModel, entity) := EntityValue(EntityData(SubnetKind, f[k]))] else map[]
  {
    assert IsMember(f, self, k);
    b1 := Apply(SubnetKind, a, f[k], isRecent, "", b).buffer;
  }

  /** Committing copies of the family and one of its events keeps the store a copy of the family. */
  lemma CommitCopies(f: map<string, Event>, self: string, n: Node, k: string, b: Buffer) returns (m: Node)
    requires WellFormed(f, self) && k in f && k in b.events && (forall j | j in n.events :: Stored(n, f, j))
    requires b.events[k] == Overlay(Mark(k, b.events[k].error, b.events[k].isValid == Some(true)), f[k])
    requires Copies(f, b.events, k)
    requires !CurrentFails(n.states, b.current)
    ensures Commit(n, b) == Some(m) && m.states == n.states + NewStates(n.states, b.current) &&
      m.events == n.events + b.events && m.historic == n.historic + b.historic
    ensures AllStored(f, n, m, k)
    ensures NoneBad(n) && b.events[k].isValid == Some(true) ==> NoneBad(m)
  {
    assert IsMember(f, self, k);
    m := Commit(n, b).value;
    forall j | j in m.events ensures Stored(m, f, j) {
      if j !in b.events {
        assert Stored(n, f, j);
      }
    }
  }

  /** The stored events are copies, and new among them are only the delivered event and the one it builds on. */
  ghost predicate AllStored(f: map<string, Event>, n: Node, m: Node, k: string)
    requires k in f
  {
    forall j | j in m.events :: Stored(m, f, j) && (j in n.events || j == k || j == f[k].previousEvent.id)
  }

  lemma SingleState(states: map<Path, Entity>, path: Path, d: Entity)
    ensures NewStates(states, map[path := EntityValue(d)]) ==
      map[path := if path in states then d else d.(id := path.id)]
  {
  }

  lemma RecentStateAfter(f: map<string, Event>, self: string, entity: string, n: Node, m: Node, delivered: set<string>,
                         k: string)
    requires WellFormed(f, self) && k in f && UpToDate(f, entity, n, delivered) && IsRecent(f, entity, n, k)
    requires k in m.events && delivered <= m.events.Keys && AllStored(f, n, m, k)
    requires m.states == n.states + map[Path(SubnetModel, entity) := StateOf(f, entity, k)]
    ensures UpToDate(f, entity, m, delivered + {k})
  {
    var path := Path(SubnetModel, entity);
    assert IsMember(f, self, k);
    if path in n.states {
      var c := n.states[path].eventId;
      forall j | j in n.events ensures NotAfter(f, j, k) {
        BeforeIsTransitive(f, j, c, k);
      }
    }
    assert m.states[path].eventId == k;
  }

  lemma OlderStateAfter(f: map<string, Event>, self: string, entity: string, n: Node, m: Node, delivered: set<string>,
                        k: string)
    requires WellFormed(f, self) && k in f && UpToDate(f, entity, n, delivered)
    requires k in m.events && delivered <= m.events.Keys && AllStored(f, n, m, k)
    requires var path := Path(SubnetModel, entity);
      && path in n.states && n.states[path].eventId in f && !IsRecent(f, entity, n, k)
      && m.states == n.states
    ensures UpToDate(f, entity, m, delivered + {k})
  {
    var c := n.states[Path(SubnetModel, entity)].eventId;
    assert IsMember(f, self, k) && NotAfter(f, k, c);
    var p := f[k].previousEvent.id;
    if p != "" && k != c {
      BeforeIsTransitive(f, p, k, c);
    }
  }

  /** The handler with a known local state is ProcessEvent followed by the settlement. */
  lemma HandleHonest(f: map<string, Event>, self: string, entity: string, a: HandlerAnswers, n: Node,
                     delivered: set<string>, k: string,
                     o: Outcome, b: Buffer)
    requires OneSubnet(f, self, entity, a, n, delivered, k)
    requires var data := LocalDataFor(SubnetKind, a, n, LocalState(SubnetKind, a, n, f[k]).state);
      EMPTY.WithEvent(f[k]).Some? &&
        (o, b) == Process(self, a.process, Store(n.events, a.broken), f[k], false, data, EMPTY.WithEvent(f[k]).value)
    ensures Handle(SubnetKind, self, a, n, f[k]) == Settle(SubnetKind, self, a, n, f[k], o, b)
  {
  }

  /** The event's data are the state: an update as it came, a first state with the id filled in. */
  predicate HasData(f: map<string, Event>, entity: string, n: Node, k: string, m: Node)
    requires k in f
  {
    var path := Path(SubnetModel, entity);
    path in m.states &&
    m.states[path] == if path in n.states then EntityData(SubnetKind, f[k]) else StateOf(f, entity, k)
  }

  /** The event's data are kept as history. */
  predicate HasHistory(f: map<string, Event>, k: string, m: Node)
    requires k in f
  {
    var path := Path(SubnetModel, f[k].payload.data.id);
    path in m.historic && m.historic[path] == EntityValue(EventEffects.Completed(SubnetKind, f[k]))
  }

  /** The node after an honest delivery that was not refused. */
  ghost predicate Takes(f: map<string, Event>, entity: string, n: Node, delivered: set<string>, k: string, m: Node)
    requires k in f
  {
    && k in m.events && m.events[k] == EventEffects.Decided(f[k], "")
    && (if IsRecent(f, entity, n, k) then HasData(f, entity, n, k, m) else m.states == n.states && HasHistory(f, k, m))
    && (UpToDate(f, entity, m, delivered + {k}) <==> Fits(f, entity, n, k))
    && (NoneBad(n) ==> NoneBad(m))
  }

  /**
   * An honest delivery is applied, unless the current state blocks it: then it is marked bad and changes nothing; or
   * a privilege is missing: then nothing is stored. Applied, it settles the node unless it leaves a state without id.
   */
  lemma DeliverHonest(f: map<string, Event>, self: string, entity: string, a: HandlerAnswers, n: Node,
                      delivered: set<string>, k: string)
    requires OneSubnet(f, self, entity, a, n, delivered, k)
    ensures var h := Handle(SubnetKind, self, a, n, f[k]);
      if Blocked(f, entity, n, k) then
        h.Done? && h.error != "" && h.node.states == n.states && k in h.node.events &&
        h.node.events[k] == EventEffects.Decided(f[k], "bad request")
      else if IsRecent(f, entity, n, k) && !EventRuns.Storable(SubnetKind, a, n, f[k]) then
        h == Crashed(n) && !Fits(f, entity, n, k)
      else h.Done? && h.error == "" && Takes(f, entity, n, delivered, k, h.node)
  {
    assert IsMember(f, self, k);
    var o, b := ProcessHonest(f, self, entity, a, n, delivered, k);
    HandleHonest(f, self, entity, a, n, delivered, k, o, b);
    if Blocked(f, entity, n, k) {
      var m := SettleBlocked(f, self, a, n, k, o, b);
    } else if IsRecent(f, entity, n, k) && !EventRuns.Storable(SubnetKind, a, n, f[k]) {
      SettleCrashes(f, self, entity, a, n, delivered, k, o, b);
    } else {
      var m := SettleApplied(f, self, entity, a, n, delivered, k, o, b);
    }
  }

  lemma SettleCrashes(f: map<string, Event>, self: string, entity: string, a: HandlerAnswers, n: Node,
                      delivered: set<string>, k: string, o: Outcome, b: Buffer)
    requires WellFormed(f, self) && entity != "" && k in f && UpToDate(f, entity, n, delivered)
    requires EntityId(a, f[k]) == entity && a.dataError == "" && !EventRuns.Storable(SubnetKind, a, n, f[k])
    requires b.current == map[] && k in b.events && b.events[k] == f[k] && Copies(f, b.events, k)
    requires IsRecent(f, entity, n, k) && o == Returned(true, true, Some(NO_AUTHORIZATION), true, "")
    ensures Settle(SubnetKind, self, a, n, f[k], o, b) == Crashed(n) && !Fits(f, entity, n, k)
  {
    var b1 := ApplyHonest(f, self, entity, a, k, true, b);
    assert IsMember(f, self, k);
    var path := Path(SubnetModel, entity);
    assert Uncommittable(n.states, path, b1.current[path]);
  }

  lemma SettleBlocked(f: map<string, Event>, self: string, a: HandlerAnswers, n: Node, k: string, o: Outcome, b: Buffer)
    returns (m: Node)
    requires WellFormed(f, self) && k in f && k in b.events && (forall j | j in n.events :: Stored(n, f, j))
    requires o == Returned(false, false, Some(NO_AUTHORIZATION), true, "bad request") && b.current == map[]
    requires b.events[k] == Overlay(Mark(k, "bad request", false), f[k])
    requires Copies(f, b.events, k)
    ensures Settle(SubnetKind, self, a, n, f[k], o, b) == Done(m, "bad request")
    ensures m.states == n.states && k in m.events && m.events[k] == EventEffects.Decided(f[k], "bad request")
  {
    m := CommitCopies(f, self, n, k, b);
    assert NewStates(n.states, map[]) == map[];
  }

  lemma SettleIsFinish(self: string, a: HandlerAnswers, n: Node, e: Event, o: Outcome, b: Buffer, b1: Buffer, m: Node)
    requires o.Returned? && o.error == "" && o.previousUpToDate && a.dataError == ""
    requires Apply(SubnetKind, a, e, o.isRecent, "", b) == Go((), b1) && Commit(n, b1) == Some(m)
    ensures Settle(SubnetKind, self, a, n, e, o, b) == Done(m, "")
  {
  }

  lemma SettleApplied(f: map<string, Event>, self: string, entity: string, a: HandlerAnswers, n: Node,
                      delivered: set<string>, k: string, o: Outcome, b: Buffer)
    returns (m: Node)
    requires WellFormed(f, self) && entity != "" && k in f && UpToDate(f, entity, n, delivered)
    requires EntityId(a, f[k]) == entity && a.dataError == ""
    requires IsRecent(f, entity, n, k) ==> EventRuns.Storable(SubnetKind, a, n, f[k])
    requires b.current == map[] && k in b.events && b.events[k] == f[k] && Copies(f, b.events, k)
    requires o == Returned(true, true, Some(NO_AUTHORIZATION), IsRecent(f, entity, n, k), "")
    ensures Settle(SubnetKind, self, a, n, f[k], o, b) == Done(m, "") && Takes(f, entity, n, delivered, k, m)
  {
    var b1 := ApplyHonest(f, self, entity, a, k, o.isRecent, b);
    assert IsMember(f, self, k);
    m := CommitCopies(f, self, n, k, b1);
    SettleIsFinish(self, a, n, f[k], o, b, b1, m);
    StateApplied(f, self, entity, a, n, m, delivered, k, b1);
    Recorded(f, entity, n, m, k, b1);
  }

  lemma Recorded(f: map<string, Event>, entity: string, n: Node, m: Node, k: string, b: Buffer)
    requires k in f && k in b.events && b.events[k] == Overlay(Mark(k, "", true), f[k]) && f[k].id == k
    requires m.events == n.events + b.events && m.historic == n.historic + b.historic
    requires !IsRecent(f, entity, n, k) ==>
      b.current == map[] && m.states == n.states + NewStates(n.states, b.current) &&
      var path := Path(SubnetModel, f[k].payload.data.id);
      path in b.historic && b.historic[path] == EntityValue(EventEffects.Completed(SubnetKind, f[k]))
    ensures k in m.events && m.events[k] == EventEffects.Decided(f[k], "")
    ensures !IsRecent(f, entity, n, k) ==> m.states == n.states && HasHistory(f, k, m)
  {
    assert !IsRecent(f, entity, n, k) ==> NewStates(n.states, map[]) == map[];
  }

  lemma StateApplied(f: map<string, Event>, self: string, entity: string, a: HandlerAnswers, n: Node, m: Node,
                     delivered: set<string>, k: string, b: Buffer)
    requires WellFormed(f, self) && entity != "" && k in f && UpToDate(f, entity, n, delivered)
    requires EntityId(a, f[k]) == entity
    requires IsRecent(f, entity, n, k) ==> EventRuns.Storable(SubnetKind, a, n, f[k])
    requires b.current ==
      if IsRecent(f, entity, n, k) then map[Path(SubnetModel, entity) := EntityValue(EntityData(SubnetKind, f[k]))]
      else map[]
    requires m.states == n.states + NewStates(n.states, b.current) && m.events == n.events + b.events && k in b.events
    requires AllStored(f, n, m, k)
    ensures UpToDate(f, entity, m, delivered + {k}) <==> Fits(f, entity, n, k)
    ensures IsRecent(f, entity, n, k) ==> HasData(f, entity, n, k, m)
  {
    if IsRecent(f, entity, n, k) {
      var path, data := Path(SubnetModel, entity), EntityData(SubnetKind, f[k]);
      SingleState(n.states, path, data);
      assert IsMember(f, self, k) && m.states[path].eventId == k;
      if path in n.states && data.id == "" {
        assert m.states[path] != StateOf(f, entity, k);
      } else {
        RecentStateAfter(f, self, entity, n, m, delivered, k);
      }
    } else {
      assert NewStates(n.states, map[]) == map[];
      OlderStateAfter(f, self, entity, n, m, delivered, k);
    }
  }

  // ---------------------------------------------------------------------------------------------
  // Deliveries in any order, with duplicates.

  datatype Arrival = Arrival(id: string, answers: HandlerAnswers)

  const NEW_NODE := Node(map[], map[], map[])

  function NodeAfter(f: map<string, Event>, self: string, run: seq<Arrival>): Option<Node> {
    if run == [] then Some(NEW_NODE)
    else match NodeAfter(f, self, run[..|run| - 1])
      case None => None
      case Some(n) =>
        var d := run[|run| - 1];
        if d.id !in f then None else
        match Handle(SubnetKind, self, d.answers, n, f[d.id])
        case Crashed(_) => None
        case Done(m, _) => Some(m)
  }

  function Delivered(run: seq<Arrival>): set<string> {
    set d | d in run :: d.id
  }

  ghost predicate HonestRun(f: map<string, Event>, self: string, entity: string, run: seq<Arrival>) {
    run == [] ||
    (var init, d := run[..|run| - 1], run[|run| - 1];
     HonestRun(f, self, entity, init) && d.id in f &&
     (NodeAfter(f, self, init).Some? ==> Honest(f, entity, d.answers, NodeAfter(f, self, init).value, f[d.id])))
  }

  /** The run ends with the latest delivered event as current state, and with no event marked bad. */
  ghost predicate Settles(f: map<string, Event>, self: string, entity: string, run: seq<Arrival>) {
    var n := NodeAfter(f, self, run);
    n.Some? && UpToDate(f, entity, n.value, Delivered(run)) && NoneBad(n.value)
  }

  ghost predicate IsOrderIndependent(f: map<string, Event>, self: string, entity: string) {
    forall run: seq<Arrival> :: HonestRun(f, self, entity, run) ==> Settles(f, self, entity, run)
  }

  lemma DeliveredLast(run: seq<Arrival>)
    requires run != []
    ensures Delivered(run) == Delivered(run[..|run| - 1]) + {run[|run| - 1].id}
  {
    var init, d := run[..|run| - 1], run[|run| - 1];
    assert run == init + [d];
    forall x | x in Delivered(init) ensures x in Delivered(run) {
      var y :| y in init && y.id == x;
      assert y in run;
    }
    assert d in run;
  }

  /** One more honest delivery settles unless it is blocked, or its data cannot replace those of the state. */
  lemma SettlesNext(f: map<string, Event>, self: string, entity: string, run: seq<Arrival>, d: Arrival)
    requires WellFormed(f, self) && entity != "" && d.id in f
    requires Settles(f, self, entity, run) && Honest(f, entity, d.answers, NodeAfter(f, self, run).value, f[d.id])
    ensures var n := NodeAfter(f, self, run).value;
      Settles(f, self, entity, run + [d]) <==> !Blocked(f, entity, n, d.id) && Fits(f, entity, n, d.id)
  {
    NodeAfterNext(f, self, run, d);
    SettlesHere(f, self, entity, d.answers, NodeAfter(f, self, run).value, Delivered(run), d.id);
  }

  lemma NodeAfterNext(f: map<string, Event>, self: string, run: seq<Arrival>, d: Arrival)
    requires NodeAfter(f, self, run).Some? && d.id in f
    ensures Delivered(run + [d]) == Delivered(run) + {d.id}
    ensures var h := Handle(SubnetKind, self, d.answers, NodeAfter(f, self, run).value, f[d.id]);
      NodeAfter(f, self, run + [d]) == if h.Done? then Some(h.node) else None
  {
    var next := run + [d];
    assert next[..|next| - 1] == run;
    DeliveredLast(next);
  }

  lemma SettlesHere(f: map<string, Event>, self: string, entity: string, a: HandlerAnswers, n: Node,
                    delivered: set<string>, k: string)
    requires OneSubnet(f, self, entity, a, n, delivered, k) && NoneBad(n)
    ensures var h := Handle(SubnetKind, self, a, n, f[k]);
      h.Done? && UpToDate(f, entity, h.node, delivered + {k}) && NoneBad(h.node) <==>
        !Blocked(f, entity, n, k) && Fits(f, entity, n, k)
  {
    DeliverHonest(f, self, entity, a, n, delivered, k);
    var h := Handle(SubnetKind, self, a, n, f[k]);
    if Blocked(f, entity, n, k) {
      assert h.node.events[k].isValid == Some(false);
    }
  }

  lemma ChainNeverBlocks(f: map<string, Event>, entity: string, n: Node, k: string)
    requires IsChainInTime(f) && UpdatesAreComplete(f) && k in f
    ensures !Blocked(f, entity, n, k) && Fits(f, entity, n, k)
  {
  }

  lemma LastIsHonest(f: map<string, Event>, self: string, entity: string, run: seq<Arrival>)
    requires run != [] && HonestRun(f, self, entity, run)
    ensures var init, d := run[..|run| - 1], run[|run| - 1];
      HonestRun(f, self, entity, init) && d.id in f && run == init + [d] &&
      (NodeAfter(f, self, init).Some? ==> Honest(f, entity, d.answers, NodeAfter(f, self, init).value, f[d.id]))
  {
  }

  /** Without interlopers, and with complete updates, every honest run settles. */
  lemma {:induction false} ChainSettles(f: map<string, Event>, self: string, entity: string, run: seq<Arrival>)
    requires WellFormed(f, self) && entity != "" && HonestRun(f, self, entity, run)
    requires IsChainInTime(f) && UpdatesAreComplete(f)
    ensures Settles(f, self, entity, run)
  {
    if run == [] {
      assert Delivered(run) == {};
    } else {
      LastIsHonest(f, self, entity, run);
      ChainSettles(f, self, entity, run[..|run| - 1]);
      LastSettles(f, self, entity, run[..|run| - 1], run[|run| - 1]);
    }
  }

  lemma LastSettles(f: map<string, Event>, self: string, entity: string, run: seq<Arrival>, d: Arrival)
    requires WellFormed(f, self) && entity != "" && IsChainInTime(f) && UpdatesAreComplete(f) && d.id in f
    requires Settles(f, self, entity, run) && Honest(f, entity, d.answers, NodeAfter(f, self, run).value, f[d.id])
    ensures Settles(f, self, entity, run + [d])
  {
    SettlesNext(f, self, entity, run, d);
    ChainNeverBlocks(f, entity, NodeAfter(f, self, run).value, d.id);
  }

  /** And every delivery of such a run leaves its event as it came, and its data as the state or as history. */
  lemma EveryDeliveryIsKept(f: map<string, Event>, self: string, entity: string, run: seq<Arrival>)
    requires WellFormed(f, self) && entity != "" && HonestRun(f, self, entity, run) && run != []
    requires IsChainInTime(f) && UpdatesAreComplete(f)
    ensures NodeAfter(f, self, run).Some? && run[|run| - 1].id in f
    ensures var m, k, path := NodeAfter(f, self, run).value, run[|run| - 1].id, Path(SubnetModel, entity);
      && k in m.events && m.events[k] == EventEffects.Decided(f[k], "")
      && path in m.states
      && (m.states[path] == StateOf(f, entity, k) || HasHistory(f, k, m))
  {
    var init, d := run[..|run| - 1], run[|run| - 1];
    LastIsHonest(f, self, entity, run);
    ChainSettles(f, self, entity, init);
    ChainSettles(f, self, entity, run);
    var n := NodeAfter(f, self, init).value;
    ChainNeverBlocks(f, entity, n, d.id);
    DeliverHonest(f, self, entity, d.answers, n, Delivered(init), d.id);
    DeliveredLast(run);
    KeptWhereItBelongs(f, self, entity, n, d.id, NodeAfter(f, self, run).value, Delivered(run));
  }

  lemma KeptWhereItBelongs(f: map<string, Event>, self: string, entity: string, n: Node, k: string, m: Node,
                           delivered: set<string>)
    requires k in f && UpToDate(f, entity, m, delivered) && k in delivered
    requires IsRecent(f, entity, n, k) ==> HasData(f, entity, n, k, m)
    ensures Path(SubnetModel, entity) in m.states
    ensures IsRecent(f, entity, n, k) ==> m.states[Path(SubnetModel, entity)] == StateOf(f, entity, k)
  {
    if IsRecent(f, entity, n, k) {
      assert f[k].id == k ==> m.states[Path(SubnetModel, entity)].eventId == k;
    }
  }

  /** Answers that are honest for any node. */
  function Honestly(f: map<string, Event>, entity: string, k: string): HandlerAnswers
    requires k in f
  {
    var p := f[k].previousEvent.id;
    HandlerAnswers(
      Answers(true, true, "", Some(""), Missing, Unreachable, None,
              if p in f then Some(PeerEvent(f[p].(synced := Some(true)), [])) else None,
              None, Missing, true, true, SyncFailed),
      entity, {}, false, false, "")
  }

  lemma HonestlyIsHonest(f: map<string, Event>, self: string, entity: string, n: Node, k: string)
    requires WellFormed(f, self) && k in f && (f[k].payload.data.id == "" || f[k].payload.data.id == entity)
    ensures Honest(f, entity, Honestly(f, entity, k), n, f[k])
  {
    assert IsMember(f, self, k);
    var p := f[k].previousEvent.id;
    if p != "" {
      assert IsMember(f, self, p);
      assert IsCopy(f[p].(synced := Some(true)), f, p);
    }
  }

  /** Delivering a family member with those answers. */
  lemma Extend(f: map<string, Event>, self: string, entity: string, run: seq<Arrival>, k: string)
    returns (next: seq<Arrival>)
    requires WellFormed(f, self) && entity != "" && k in f &&
      (f[k].payload.data.id == "" || f[k].payload.data.id == entity)
    requires HonestRun(f, self, entity, run) && Settles(f, self, entity, run)
    ensures HonestRun(f, self, entity, next) && Delivered(next) == Delivered(run) + {k}
    ensures next == run + [Arrival(k, Honestly(f, entity, k))]
    ensures var n := NodeAfter(f, self, run).value;
      Settles(f, self, entity, next) <==> !Blocked(f, entity, n, k) && Fits(f, entity, n, k)
  {
    var d := Arrival(k, Honestly(f, entity, k));
    next := run + [d];
    assert next[..|next| - 1] == run;
    DeliveredLast(next);
    HonestlyIsHonest(f, self, entity, NodeAfter(f, self, run).value, k);
    SettlesNext(f, self, entity, run, d);
  }

  /** A settled node whose deliveries include the interloper as latest, and the event it follows, blocks the third. */
  lemma InterloperBlocks(f: map<string, Event>, self: string, entity: string, n: Node, s: string, k: string)
    requires WellFormed(f, self) && s in f && k in f && Interlopes(f, s, k)
    requires UpToDate(f, entity, n, {f[k].previousEvent.id} + {s})
    ensures Blocked(f, entity, n, k)
  {
    var c := n.states[Path(SubnetModel, entity)].eventId;
    var p := f[k].previousEvent.id;
    assert IsLatest(f, {p} + {s}, c);
    BeforeIsStrict(f, p, s);
    assert NotAfter(f, s, c);
  }

  lemma FirstDelivery(f: map<string, Event>, self: string, entity: string, p: string) returns (run: seq<Arrival>)
    requires WellFormed(f, self) && entity != "" && p in f &&
      (f[p].payload.data.id == "" || f[p].payload.data.id == entity)
    ensures HonestRun(f, self, entity, run) && Settles(f, self, entity, run) && Delivered(run) == {p}
    ensures run == [Arrival(p, Honestly(f, entity, p))]
  {
    assert Delivered([]) == {};
    run := Extend(f, self, entity, [], p);
    assert !Blocked(f, entity, NEW_NODE, p);
  }

  lemma SecondDelivery(f: map<string, Event>, self: string, entity: string, p: string, s: string)
    returns (run: seq<Arrival>)
    requires WellFormed(f, self) && entity != "" && p in f &&
      (f[p].payload.data.id == "" || f[p].payload.data.id == entity)
    requires s in f && (f[s].payload.data.id == "" || f[s].payload.data.id == entity)
    ensures HonestRun(f, self, entity, run) && Delivered(run) == {p} + {s}
  {
    var first := FirstDelivery(f, self, entity, p);
    run := Extend(f, self, entity, first, s);
  }

  /** An interloper, delivered between the two events it separates, makes the later one bad. */
  lemma InterloperUnsettles(f: map<string, Event>, self: string, entity: string, s: string, k: string)
    returns (run: seq<Arrival>)
    requires WellFormed(f, self) && entity != "" && s in f && k in f && Interlopes(f, s, k)
    requires forall j | j in f :: f[j].payload.data.id == "" || f[j].payload.data.id == entity
    ensures HonestRun(f, self, entity, run) && !Settles(f, self, entity, run)
  {
    run := SecondDelivery(f, self, entity, f[k].previousEvent.id, s);
    if Settles(f, self, entity, run) {
      InterloperBlocks(f, self, entity, NodeAfter(f, self, run).value, s, k);
      run := Extend(f, self, entity, run, k);
    }
  }

  /** An incomplete update, delivered after an older event, does not settle. */
  lemma IncompleteUnsettles(f: map<string, Event>, self: string, entity: string, j: string, k: string)
    returns (run: seq<Arrival>)
    requires WellFormed(f, self) && entity != "" && j in f && k in f && Before(f, j, k) && !Replaces(f, k, j)
    requires forall j | j in f :: f[j].payload.data.id == "" || f[j].payload.data.id == entity
    ensures HonestRun(f, self, entity, run) && !Settles(f, self, entity, run)
  {
    var first := FirstDelivery(f, self, entity, j);
    assert NodeAfter(f, self, first).value.states[Path(SubnetModel, entity)].eventId in Delivered(first);
    run := Extend(f, self, entity, first, k);
  }

  /**
   * Every honest run, in any order and with repetitions, ends with the data of its latest delivered event as state
   * and with no event marked bad, if and only if no event of the family happened between another event and the
   * previous event that one names, all data but the oldest event's carry an id, and all of several a privilege.
   */
  lemma OrderIndependentIff(f: map<string, Event>, self: string, entity: string)
    requires WellFormed(f, self) && entity != ""
    requires forall j | j in f :: f[j].payload.data.id == "" || f[j].payload.data.id == entity
    ensures IsOrderIndependent(f, self, entity) <==> IsChainInTime(f) && UpdatesAreComplete(f)
  {
    if IsChainInTime(f) && UpdatesAreComplete(f) {
      forall run: seq<Arrival> | HonestRun(f, self, entity, run) ensures Settles(f, self, entity, run) {
        ChainSettles(f, self, entity, run);
      }
    } else if !IsChainInTime(f) {
      var s, k :| s in f && k in f && Interlopes(f, s, k);
      var run := InterloperUnsettles(f, self, entity, s, k);
    } else {
      var j, k :| j in f && k in f && Before(f, j, k) && !Replaces(f, k, j);
      var run := IncompleteUnsettles(f, self, entity, j, k);
    }
  }

  /** A linear chain of previous events has no interlopers. */
  lemma LinearChainIsChainInTime(f: map<string, Event>, self: string, chain: seq<string>)
    requires WellFormed(f, self)
    requires (forall k | k in f :: k in chain) && (forall i | 0 <= i < |chain| :: chain[i] in f)
    requires forall i | 0 <= i < |chain| :: f[chain[i]].previousEvent.id == if i == 0 then "" else chain[i - 1]
    ensures IsChainInTime(f)
  {
    forall s, k | s in f && k in f ensures !Interlopes(f, s, k) {
      var i :| 0 <= i < |chain| && chain[i] == s;
      var j :| 0 <= j < |chain| && chain[j] == k;
      NoInterloperInChain(f, self, chain, i, j);
    }
  }

  lemma NoInterloperInChain(f: map<string, Event>, self: string, chain: seq<string>, i: nat, j: nat)
    requires WellFormed(f, self) && i < |chain| && j < |chain|
    requires forall i | 0 <= i < |chain| :: chain[i] in f
    requires forall i | 0 <= i < |chain| :: f[chain[i]].previousEvent.id == if i == 0 then "" else chain[i - 1]
    ensures !Interlopes(f, chain[i], chain[j])
  {
    var s, k := chain[i], chain[j];
    BeforeIsStrict(f, s, k);
    BeforeIsStrict(f, s, s);
    assert f[k].previousEvent.id == if j == 0 then "" else chain[j - 1];
    if i + 1 < j {
      EarlierIsOlder(f, self, chain, i, j - 1);
      BeforeIsStrict(f, s, chain[j - 1]);
    } else if j < i {
      EarlierIsOlder(f, self, chain, j, i);
      BeforeIsStrict(f, k, s);
    }
  }

  lemma {:induction false} EarlierIsOlder(f: map<string, Event>, self: string, chain: seq<string>, i: nat, j: nat)
    requires WellFormed(f, self) && i < j < |chain|
    requires forall i | 0 <= i < |chain| :: chain[i] in f
    requires forall i | 0 <= i < |chain| :: f[chain[i]].previousEvent.id == if i == 0 then "" else chain[i - 1]
    ensures Before(f, chain[i], chain[j])
  {
    assert IsMember(f, self, chain[j]) && IsMember(f, self, chain[j - 1]);
    assert f[chain[j]].previousEvent.id == chain[j - 1];
    if i < j - 1 {
      EarlierIsOlder(f, self, chain, i, j - 1);
      BeforeIsTransitive(f, chain[i], chain[j - 1], chain[j]);
    }
  }

  /** A creation and an update of it whose data carry no id, with nothing wrong in the order of time. */
  ghost predicate BlankUpdate(f: map<string, Event>, self: string, entity: string, j: string, k: string) {
    && WellFormed(f, self) && entity != "" && j in f && k in f && Before(f, j, k) && !Interlopes(f, j, k)
    && (f[j].payload.data.id == "" || f[j].payload.data.id == entity)
    && f[k].payload.data.id == "" && f[j].previousEvent.id == ""
    && f[j].payload.data.privilege.Some? && f[k].payload.data.privilege.Some?
  }

  /** Delivered in order, the update leaves a state without an id. */
  lemma BlankUpdateStored(f: map<string, Event>, self: string, entity: string, j: string, k: string)
    returns (run: seq<Arrival>, n: Node)
    requires BlankUpdate(f, self, entity, j, k)
    ensures HonestRun(f, self, entity, run) && NodeAfter(f, self, run) == Some(n)
    ensures |run| == 2 && run[0].id == j && run[1].id == k
    ensures Path(SubnetModel, entity) in n.states &&
      n.states[Path(SubnetModel, entity)] == EntityData(SubnetKind, f[k])
  {
    var path, d := Path(SubnetModel, entity), Arrival(k, Honestly(f, entity, k));
    var one := FirstDelivery(f, self, entity, j);
    var n1 := NodeAfter(f, self, one).value;
    assert n1.states[path].eventId in Delivered(one) && n1.states[path] == StateOf(f, entity, j);
    HonestlyIsHonest(f, self, entity, n1, k);
    DeliverHonest(f, self, entity, d.answers, n1, {j}, k);
    n := Handle(SubnetKind, self, d.answers, n1, f[k]).node;
    run := one + [d];
    assert run[..|run| - 1] == one;
    assert HasData(f, entity, n1, k, n);
  }

  /** Then the creation is delivered once more, and the older of the two is the state. */
  lemma CreationReturns(f: map<string, Event>, self: string, entity: string, j: string, k: string)
    returns (run: seq<Arrival>, n: Node)
    requires BlankUpdate(f, self, entity, j, k)
    ensures HonestRun(f, self, entity, run) && NodeAfter(f, self, run) == Some(n)
    ensures |run| == 3 && run[0].id == run[2].id == j && run[1].id == k
    ensures Path(SubnetModel, entity) in n.states && n.states[Path(SubnetModel, entity)].eventId == j
  {
    var two, n2 := BlankUpdateStored(f, self, entity, j, k);
    var d := Arrival(j, Honestly(f, entity, j));
    assert IsMember(f, self, j);
    HonestlyIsHonest(f, self, entity, n2, j);
    StateProgress.BlankStateIsReplaced(self, d.answers, n2, f[j]);
    run := two + [d];
    assert run[..|run| - 1] == two;
    n := Handle(SubnetKind, self, d.answers, n2, f[j]).node;
  }

  /** A creation and an update that follows it directly and later; neither carries an id in its data. */
  function BlankChain(): map<string, Event> {
    var data := Entity("", "", 0, Some(0), "");
    var created := Event("1", NO_PAYLOAD.(data := data), 10, CREATE_SUBNET_EVENT, NO_PATH, NO_PATH, "", "a", true,
      None, None, "v");
    map["1" := created,
        "2" := created.(id := "2", timestamp := 20, eventType := UPDATE_SUBNET_EVENT, hash := "b",
                        previousEvent := Path(SubnetModel, "1"))]
  }

  lemma BlankChainIsWellFormed()
    ensures WellFormed(BlankChain(), "") && Before(BlankChain(), "1", "2")
  {
    var f := BlankChain();
    assert Before(f, "1", "2");
    assert IsMember(f, "", "1");
    assert IsMember(f, "", "2");
  }

  lemma BlankChainIsChain()
    ensures WellFormed(BlankChain(), "") && Before(BlankChain(), "1", "2") && IsChainInTime(BlankChain())
  {
    BlankChainIsWellFormed();
    LinearChainIsChainInTime(BlankChain(), "", ["1", "2"]);
  }

  /** A chain whose times increase, and still the deliveries 1, 2, 1 end with 1 as the state. */
  lemma BlankChainReorders() returns (run: seq<Arrival>, n: Node)
    ensures var f := BlankChain();
      && WellFormed(f, "") && IsChainInTime(f) && Before(f, "1", "2")
      && HonestRun(f, "", "s", run) && NodeAfter(f, "", run) == Some(n)
    ensures |run| == 3 && run[0].id == run[2].id == "1" && run[1].id == "2"
    ensures Path(SubnetModel, "s") in n.states && n.states[Path(SubnetModel, "s")].eventId == "1"
  {
    BlankChainIsChain();
    run, n := CreationReturns(BlankChain(), "", "s", "1", "2");
  }
}
