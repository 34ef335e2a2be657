/** Along any run of remote events, the current state of an entity only moves to more recent events. */
module StateProgress {
  import opened Wrappers
  import opened Ordering
  import opened Entities
  import opened DataStates
  import opened EventProcessing
  import opened EventHandling
  import opened EventConditions
  import EventEffects
  import EventRuns

  /** All copies of one event, wherever they are met, agree on identity, hash and time. */
  predicate Agrees(e: Event, universe: map<string, Event>) {
    e.id != "" && e.id in universe && universe[e.id].hash == e.hash && universe[e.id].timestamp == e.timestamp
  }

  predicate StoreAgrees(events: map<string, Event>, universe: map<string, Event>) {
    forall k | k in events :: events[k].id == k && Agrees(events[k], universe)
  }

  /** Every current state has an id, as its path has, and came from a stored event. */
  predicate Consistent(n: Node, universe: map<string, Event>) {
    && StoreAgrees(n.events, universe)
    && forall p | p in n.states :: p.id != "" && n.states[p].id != "" && n.states[p].eventId in n.events
  }

  predicate PeersAgree(a: Answers, universe: map<string, Event>) {
    && (a.peerSubnet.Fetched? ==> Agrees(a.peerSubnet.event, universe))
    && (a.peerPrevious.Some? ==> Agrees(a.peerPrevious.value.event, universe))
    && (a.peerAuth.Some? && a.peerAuth.value.event.Some? ==> Agrees(a.peerAuth.value.event.value, universe))
  }

  predicate Newer(s: Event, e: Event) {
    IsMoreRecentEvent(s.hash, ToInt(s.timestamp), e.hash, ToInt(e.timestamp))
  }

  // ---------------------------------------------------------------------------------------------
  // Every stage keeps the queued events in agreement.

  lemma WithEventAgrees(b: Buffer, e: Event, universe: map<string, Event>)
    requires StoreAgrees(b.events, universe) && b.WithEvent(e).Some?
    requires Agrees(e, universe) || (e.id in b.events && e == Mark(e.id, e.error, e.isValid == Some(true)))
    ensures StoreAgrees(b.WithEvent(e).value.events, universe) && e.id in b.WithEvent(e).value.events
    ensures b.events.Keys <= b.WithEvent(e).value.events.Keys
  {
  }

  lemma KnowSubnetAgrees(a: Answers, e: Event, b: Buffer, universe: map<string, Event>)
    requires StoreAgrees(b.events, universe) && PeersAgree(a, universe)
    ensures StoreAgrees(KnowSubnet(a, e, b).buffer.events, universe)
    ensures b.events.Keys <= KnowSubnet(a, e, b).buffer.events.Keys
  {
    if a.peerSubnet.Fetched? && b.WithEvent(a.peerSubnet.event).Some? {
      WithEventAgrees(b, a.peerSubnet.event, universe);
    }
  }

  lemma AdmissionAgrees(a: Answers, e: Event, agentRequired: bool, b: Buffer, universe: map<string, Event>)
    requires StoreAgrees(b.events, universe) && PeersAgree(a, universe) && Agrees(e, universe)
    ensures StoreAgrees(Admission(a, e, agentRequired, b).buffer.events, universe)
    ensures b.events.Keys <= Admission(a, e, agentRequired, b).buffer.events.Keys
  {
    KnowSubnetAgrees(a, e, b, universe);
    var s := KnowSubnet(a, e, b);
    if s.buffer.WithEvent(e).Some? {
      WithEventAgrees(s.buffer, e, universe);
    }
  }

  lemma PreviousAgrees(a: Answers, store: Store, e: Event, b: Buffer, universe: map<string, Event>)
    requires StoreAgrees(b.events, universe) && PeersAgree(a, universe)
    ensures StoreAgrees(KnowPrevious(a, store, e, b).buffer.events, universe)
    ensures b.events.Keys <= KnowPrevious(a, store, e, b).buffer.events.Keys
  {
    if e.previousEvent.id != "" && store.Get(e.previousEvent.id).Missing? && a.peerPrevious.Some? {
      var peer := a.peerPrevious.value;
      HistoricsKeepTheRest(b.Written(peer.event), e.previousEvent, peer.states);
    }
  }

  lemma CheckAgrees(a: Answers, e: Event, current: Authorization, auths: Auths, previousUpToDate: bool, b: Buffer,
                    universe: map<string, Event>)
    requires auths.event.Some? && Path(AuthModel, auths.state.id) !in b.current
    requires StoreAgrees(b.events, universe) && Agrees(auths.event.value, universe)
    ensures StoreAgrees(CheckAuth(a, e, current, auths, previousUpToDate, b).buffer.events, universe)
    ensures b.events.Keys <= CheckAuth(a, e, current, auths, previousUpToDate, b).buffer.events.Keys
  {
    var grant := auths.event.value;
    var b1 := b.WithCurrentState(Path(AuthModel, auths.state.id), AuthPointer(auths.state));
    if Supersedes(auths.state, current) == Some(true) {
      if b1.WithEvent(grant).Some? {
        WithEventAgrees(b1, grant, universe);
      }
    } else if b.WithEvent(grant).Some? {
      WithEventAgrees(b, grant, universe);
    }
  }

  lemma FoundAgrees(a: Answers, store: Store, e: Event, previousUpToDate: bool, authUpToDate: bool, b: Buffer,
                    universe: map<string, Event>)
    requires StoreAgrees(store.events, universe) && PeersAgree(a, universe)
    ensures var s := FindAuth(a, store, e, previousUpToDate, authUpToDate, b);
      s.buffer == b && (s.Go? ==> s.next.event.Some? && Agrees(s.next.event.value, universe))
  {
  }

  lemma AuthAgrees(a: Answers, store: Store, e: Event, agentRequired: bool, previousUpToDate: bool, b: Buffer,
                   universe: map<string, Event>)
    requires NoAuthQueued(b) && StoreAgrees(b.events, universe) && StoreAgrees(store.events, universe) &&
      PeersAgree(a, universe)
    ensures StoreAgrees(KnowAuth(a, store, e, agentRequired, previousUpToDate, b).buffer.events, universe)
    ensures b.events.Keys <= KnowAuth(a, store, e, agentRequired, previousUpToDate, b).buffer.events.Keys
  {
    FoundAgrees(a, store, e, previousUpToDate, !agentRequired, b, universe);
    var found := FindAuth(a, store, e, previousUpToDate, !agentRequired, b);
    if found.Go? {
      CheckAgrees(a, e, CurrentAuth(a, agentRequired), found.next, previousUpToDate, b, universe);
    }
  }

  lemma ConcludeAgrees(a: Answers, store: Store, e: Event, agentRequired: bool, data: LocalData, previous: Previous,
                       auths: Auths,
                       b: Buffer, universe: map<string, Event>)
    requires StoreAgrees(b.events, universe) && e.id in b.events
    ensures StoreAgrees(Conclude(a, store, e, agentRequired, data, previous, auths, b).1.events, universe)
    ensures b.events.Keys <= Conclude(a, store, e, agentRequired, data, previous, auths, b).1.events.Keys
  {
    WithEventAgrees(b, Mark(e.id, "bad request", false), universe);
    WithEventAgrees(b, Mark(e.id, "unauthorized", false), universe);
  }

  lemma ResolveAgrees(a: Answers, store: Store, e: Event, agentRequired: bool, data: LocalData, b: Buffer,
                      universe: map<string, Event>)
    requires NoAuthQueued(b) && StoreAgrees(b.events, universe) && StoreAgrees(store.events, universe)
    requires PeersAgree(a, universe) && e.id in b.events
    ensures StoreAgrees(Resolve(a, store, e, agentRequired, data, b).1.events, universe)
    ensures e.id in Resolve(a, store, e, agentRequired, data, b).1.events
  {
    PreviousAgrees(a, store, e, b, universe);
    PreviousQueuesNoAuth(a, store, e, b);
    var p := KnowPrevious(a, store, e, b);
    if p.Go? {
      AuthAgrees(a, store, e, agentRequired, p.next.upToDate, p.buffer, universe);
      var s := KnowAuth(a, store, e, agentRequired, p.next.upToDate, p.buffer);
      if s.Go? {
        ConcludeAgrees(a, store, e, agentRequired, data, p.next, s.next, s.buffer, universe);
      }
    }
  }

  lemma ProcessAgrees(self: string, a: Answers, store: Store, e: Event, agentRequired: bool, data: LocalData,
                      b: Buffer, universe: map<string, Event>)
    requires NoAuthQueued(b) && StoreAgrees(b.events, universe) && StoreAgrees(store.events, universe)
    requires PeersAgree(a, universe) && Agrees(e, universe) && e.id in b.events
    ensures StoreAgrees(Process(self, a, store, e, agentRequired, data, b).1.events, universe)
    ensures e.id in Process(self, a, store, e, agentRequired, data, b).1.events
  {
    AdmissionAgrees(a, e, agentRequired, b, universe);
    EventRuns.AdmissionKeepsCurrent(a, e, agentRequired, b);
    ResolveAgrees(a, store, e, agentRequired, data, Admission(a, e, agentRequired, b).buffer, universe);
  }

  lemma ApplyAgrees(kind: Kind, a: HandlerAnswers, e: Event, isRecent: bool, error: string, b: Buffer,
                    universe: map<string, Event>)
    requires StoreAgrees(b.events, universe) && e.id in b.events
    ensures StoreAgrees(Apply(kind, a, e, isRecent, error, b).buffer.events, universe)
    ensures e.id in Apply(kind, a, e, isRecent, error, b).buffer.events
  {
    if b.WithEvent(Mark(e.id, error, error == "")).Some? {
      WithEventAgrees(b, Mark(e.id, error, error == ""), universe);
    }
  }

  /** A node whose events agree and include those of another, and the delivered one unless the handler panicked. */
  predicate Extends(n: Node, h: Handled, id: string, universe: map<string, Event>) {
    StoreAgrees(h.node.events, universe) && n.events.Keys <= h.node.events.Keys && (h.Done? ==> id in h.node.events)
  }

  lemma CommittedAgrees(n: Node, b: Buffer, id: string, error: string, universe: map<string, Event>)
    requires StoreAgrees(n.events, universe) && StoreAgrees(b.events, universe) && id in b.events
    ensures Extends(n, Finish(n, b, error), id, universe) && Extends(n, Unwind(n, b), id, universe)
  {
  }

  lemma SettleAgrees(kind: Kind, self: string, a: HandlerAnswers, n: Node, e: Event, o: Outcome, b: Buffer,
                     universe: map<string, Event>)
    requires StoreAgrees(n.events, universe) && StoreAgrees(b.events, universe) && e.id in b.events
    ensures Extends(n, Settle(kind, self, a, n, e, o, b), e.id, universe)
  {
    if o.Panicked? || o.error != "" || !o.previousUpToDate || (kind.TopicKind? && !o.authUpToDate) {
      CommittedAgrees(n, b, e.id, if o.Panicked? then "" else o.error, universe);
    } else {
      var verdict := Verdict(kind, self, a, e, o.auth);
      if verdict.None? {
        CommittedAgrees(n, b, e.id, "", universe);
      } else {
        ApplyAgrees(kind, a, e, o.isRecent, verdict.value, b, universe);
        CommittedAgrees(n, Apply(kind, a, e, o.isRecent, verdict.value, b).buffer, e.id, "", universe);
      }
    }
  }

  /** Handling keeps the stored events in agreement with those that were sent, also when it panics. */
  lemma HandleAgrees(kind: Kind, self: string, a: HandlerAnswers, n: Node, e: Event, universe: map<string, Event>)
    requires StoreAgrees(n.events, universe) && PeersAgree(a.process, universe) && Agrees(e, universe)
    ensures Extends(n, Handle(kind, self, a, n, e), e.id, universe)
  {
    if EMPTY.WithEvent(e).Some? {
      var b := EMPTY.WithEvent(e).value;
      WithEventAgrees(EMPTY, e, universe);
      var local := LocalState(kind, a, n, e);
      if local.Known? && !StateEventBroken(kind, a, local.state) {
        var store, data := Store(n.events, a.broken), LocalDataFor(kind, a, n, local.state);
        ProcessAgrees(self, a.process, store, e, kind.TopicKind?, data, b, universe);
        var (o, b1) := Process(self, a.process, store, e, kind.TopicKind?, data, b);
        SettleAgrees(kind, self, a, n, e, o, b1, universe);
      } else {
        CommittedAgrees(n, b, e.id, if local.Failed? then local.error else "db error", universe);
      }
    }
  }

  // ---------------------------------------------------------------------------------------------
  // What "recent" means when an event is accepted.

  lemma ConcludedRecency(a: Answers, store: Store, e: Event, agentRequired: bool, data: LocalData, previous: Previous,
                         auths: Auths, b: Buffer)
    requires previous.upToDate && auths.upToDate
    requires var o := Conclude(a, store, e, agentRequired, data, previous, auths, b).0; o.Returned? && o.isRecent
    ensures var r := KnowRecency(data, previous.event, e); r.Some? && r.value.isRecent
  {
  }

  /** What a handler takes for accepted as recent. */
  predicate Accepted(o: Outcome, agentRequired: bool) {
    o.Returned? && o.error == "" && o.previousUpToDate && (agentRequired ==> o.authUpToDate) && o.isRecent
  }

  /** An accepted event passed every stage, or was a subnet event that names a blank grant. */
  lemma AcceptedPasses(a: Answers, store: Store, e: Event, agentRequired: bool, data: LocalData, b: Buffer)
    requires NoAuthQueued(b) && Accepted(Resolve(a, store, e, agentRequired, data, b).0, agentRequired)
    requires Resolve(a, store, e, agentRequired, data, b).1.current == map[]
    requires agentRequired || !NamesBlankGrant(a, store, e)
    ensures agentRequired || e.authEvent.id == ""
    ensures var p := KnowPrevious(a, store, e, b);
      p.Go? && p.next.upToDate && NoAuthQueued(p.buffer) &&
      var s := KnowAuth(a, store, e, agentRequired, true, p.buffer);
      s.Go? && s.next.upToDate &&
      Resolve(a, store, e, agentRequired, data, b) ==
        Conclude(a, store, e, agentRequired, data, p.next, s.next, s.buffer)
  {
    PreviousQueuesNoAuth(a, store, e, b);
    var p := KnowPrevious(a, store, e, b);
    assert p.Go?;
    var s := KnowAuth(a, store, e, agentRequired, p.next.upToDate, p.buffer);
    if !agentRequired && e.authEvent.id != "" {
      NamedGrantQueuesPointer(a, store, e, p.next.upToDate, p.buffer);
    }
    if s.Go? {
      EventRuns.ConcludeKeepsCurrent(a, store, e, agentRequired, data, p.next, s.next, s.buffer);
    }
    if agentRequired {
      EventRuns.StagesDoNotAccept(a, store, e, p.next.upToDate, p.buffer);
    }
  }

  /** An accepted recent event succeeds the local state directly or is newer than the state's event. */
  lemma RecentIsNewer(self: string, a: Answers, store: Store, e: Event, agentRequired: bool, data: LocalData, b: Buffer)
    requires NoAuthQueued(b) && e.validator != self && (agentRequired || !NamesBlankGrant(a, store, e))
    requires data.state.Some? && data.state.value.id != "" && (data.event.Some? ==> data.event.value.id != "")
    requires var (o, b1) := Process(self, a, store, e, agentRequired, data, b);
      Accepted(o, agentRequired) && b1.current == map[]
    ensures data.state.value.eventId == e.previousEvent.id || (data.event.Some? &&
      IsMoreRecentEvent(data.event.value.hash, ToInt(data.event.value.timestamp), e.hash, ToInt(e.timestamp)))
  {
    EventRuns.AdmissionKeepsCurrent(a, e, agentRequired, b);
    var admission := Admission(a, e, agentRequired, b);
    assert admission.Go?;
    AcceptedPasses(a, store, e, agentRequired, data, admission.buffer);
    var p := KnowPrevious(a, store, e, admission.buffer);
    var s := KnowAuth(a, store, e, agentRequired, true, p.buffer);
    ConcludedRecency(a, store, e, agentRequired, data, p.next, s.next, s.buffer);
  }

  // ---------------------------------------------------------------------------------------------
  // One delivery.

  /** A remote event that is later than the event it names, where all copies of events agree. */
  predicate Sent(self: string, a: HandlerAnswers, e: Event, universe: map<string, Event>) {
    && e.validator != self && Agrees(e, universe) && PeersAgree(a.process, universe)
    && (e.previousEvent.id in universe ==> Newer(universe[e.previousEvent.id], e))
  }

  /**
   * The state at the event's path goes unread, or loses its id to an update without one: a topic event without a
   * data id skips the lookup, a subnet event without one is stored as it came, and a blank grant ends ProcessEvent
   * before the comparison. Not applied are a topic event without a grant, and a subnet event that updates without a
   * default privilege or names a grant that has an id.
   */
  predicate Risky(kind: Kind, e: Event, stored: bool, blankGrant: bool) {
    stored &&
    if kind.TopicKind? then e.payload.data.id == "" && e.authEvent.id != ""
    else e.payload.data.privilege.Some? && if e.authEvent.id == "" then e.payload.data.id == "" else blankGrant
  }

  predicate Unguarded(kind: Kind, a: HandlerAnswers, n: Node, e: Event) {
    Risky(kind, e, Path(kind.Model(), EntityId(a, e)) in n.states,
      NamesBlankGrant(a.process, Store(n.events, a.broken), e))
  }

  /** The state at a path stays, or its event is replaced by a more recent one. */
  ghost predicate Progress(n: Node, n': Node, universe: map<string, Event>) {
    forall p | p in n.states ::
      && p in n'.states && n.states[p].eventId in universe && n'.states[p].eventId in universe
      && (n'.states[p] == n.states[p] || Newer(universe[n.states[p].eventId], universe[n'.states[p].eventId]))
  }

  /** A replaced state gives way to a more recent event, and keeps an id. */
  lemma ReplacedByNewer(kind: Kind, self: string, a: HandlerAnswers, n: Node, e: Event, universe: map<string, Event>)
    requires Consistent(n, universe) && Sent(self, a, e, universe) && !Unguarded(kind, a, n, e)
    requires Handle(kind, self, a, n, e).node.states != n.states
    ensures var path := Path(kind.Model(), EntityId(a, e));
      path in n.states ==>
        e.payload.data.id != "" && n.states[path].eventId in universe && Newer(universe[n.states[path].eventId], e)
  {
    var path := Path(kind.Model(), EntityId(a, e));
    if path in n.states {
      EventRuns.OnlyAcceptedEventsChangeStates(kind, self, a, n, e);
      EventRuns.AppliedIsStorable(kind, self, a, n, e);
      if kind.TopicKind? {
        var grant, auth := EventRuns.TopicChangesUnderSupersededGrant(self, a, n, e);
        GrantIsNamed(self, a, n, e);
      }
      var store, b := Store(n.events, a.broken), EMPTY.WithEvent(e).value;
      var data := LocalDataFor(kind, a, n, LocalState(kind, a, n, e).state);
      if kind.SubnetKind? {
        AcceptedNamesNone(self, a, n, e, data);
      }
      assert LocalState(kind, a, n, e) == Known(Some(n.states[path]));
      RecentIsNewer(self, a.process, store, e, kind.TopicKind?, data, b);
    }
  }

  lemma GrantIsNamed(self: string, a: HandlerAnswers, n: Node, e: Event)
    requires e.validator != self && Handle(TopicKind, self, a, n, e).node.states != n.states
    ensures e.authEvent.id != ""
  {
    EventRuns.OnlyAcceptedEventsChangeStates(TopicKind, self, a, n, e);
    var data := LocalDataFor(TopicKind, a, n, LocalState(TopicKind, a, n, e).state);
    var grant, auth := EventRuns.AcceptedEventIsAuthorized(
      self, a.process, Store(n.events, a.broken), e, data, EMPTY.WithEvent(e).value);
  }

  /** A subnet event that is applied names no grant, or a blank one. */
  lemma AcceptedNamesNone(self: string, a: HandlerAnswers, n: Node, e: Event, data: LocalData)
    requires e.validator != self && EMPTY.WithEvent(e).Some?
    requires var (o, b) :=
        Process(self, a.process, Store(n.events, a.broken), e, false, data, EMPTY.WithEvent(e).value);
      Accepted(o, false) && b.current == map[]
    ensures e.authEvent.id == "" || NamesBlankGrant(a.process, Store(n.events, a.broken), e)
  {
    var store, b := Store(n.events, a.broken), EMPTY.WithEvent(e).value;
    EventRuns.AdmissionKeepsCurrent(a.process, e, false, b);
    if !NamesBlankGrant(a.process, store, e) {
      AcceptedPasses(a.process, store, e, false, data, Admission(a.process, e, false, b).buffer);
    }
  }

  /** A delivery that is not unguarded keeps the node consistent and every state progressing, also when it panics. */
  lemma StepProgresses(kind: Kind, self: string, a: HandlerAnswers, n: Node, e: Event, universe: map<string, Event>)
    requires Consistent(n, universe) && Sent(self, a, e, universe) && !Unguarded(kind, a, n, e)
    ensures Keeps(kind, self, a, n, e, universe)
  {
    HandleAgrees(kind, self, a, n, e, universe);
    if Handle(kind, self, a, n, e).node.states != n.states {
      EventRuns.OnlyAcceptedEventsChangeStates(kind, self, a, n, e);
      EventRuns.AppliedIsStorable(kind, self, a, n, e);
      ReplacedByNewer(kind, self, a, n, e, universe);
      OwnStateProgresses(kind, a, n, Handle(kind, self, a, n, e).node, e, universe);
    }
  }

  ghost predicate Keeps(kind: Kind, self: string, a: HandlerAnswers, n: Node, e: Event, universe: map<string, Event>) {
    var n' := Handle(kind, self, a, n, e).node;
    Consistent(n', universe) && Progress(n, n', universe)
  }

  lemma OwnStateProgresses(kind: Kind, a: HandlerAnswers, n: Node, n': Node, e: Event, universe: map<string, Event>)
    requires Consistent(n, universe) && StoreAgrees(n'.events, universe) && e.id in n'.events &&
      n.events.Keys <= n'.events.Keys
    requires Agrees(e, universe) && EntityId(a, e) != ""
    requires var path := Path(kind.Model(), EntityId(a, e));
      && n'.states == n.states + NewStates(n.states, map[path := EventRuns.OwnState(kind, a, e)])
      && (path in n.states ==>
            e.payload.data.id != "" && n.states[path].eventId in universe && Newer(universe[n.states[path].eventId], e))
    ensures Consistent(n', universe) && Progress(n, n', universe)
  {
    var path := Path(kind.Model(), EntityId(a, e));
    var own := NewStates(n.states, map[path := EventRuns.OwnState(kind, a, e)]);
    assert path in own && own[path].id != "" && own[path].eventId == e.id;
    assert forall p | p in own :: p == path;
  }

  // ---------------------------------------------------------------------------------------------
  // Unguarded deliveries roll a state back.

  predicate Checked(self: string, a: HandlerAnswers, e: Event) {
    && e.id != "" && e.signed && e.error == "" && e.validator != self
    && a.process.valid && a.process.encodes && (IsSubnetEvent(e) || a.process.subnet.Found?)
    && a.process.signer == Some(a.process.agent) && !a.stateBroken && a.dataError == "" && EntityId(a, e) != ""
  }

  /** The previous event is stored, or there is none. */
  predicate PreviousReady(n: Node, broken: set<string>, e: Event) {
    e.previousEvent.id == "" || (e.previousEvent.id in n.events && e.previousEvent.id !in broken)
  }

  lemma PassedIsApplied(self: string, a: HandlerAnswers, n: Node, e: Event)
    requires Checked(self, a, e) && Passes(SubnetKind, a, n, e, true)
    ensures EventRuns.AppliedIfStorable(SubnetKind, self, a, n, e)
  {
    EventEffects.RecentIsApplied(SubnetKind, self, a, n, e);
    EventEffects.OwnDataAre(SubnetKind, a, n, e);
    var path, own := OwnPath(SubnetKind, a, e), EventEffects.NewState(SubnetKind, a, n, e);
    assert n.states + map[path := own] == n.states[path := own];
  }

  /** A subnet event that names no grant is applied if it compares as recent and not stale. */
  lemma UngrantedIsApplied(self: string, a: HandlerAnswers, n: Node, e: Event)
    requires Checked(self, a, e) && PreviousReady(n, a.broken, e) && e.authEvent.id == ""
    requires Compares(SubnetKind, a, n, e, true)
    ensures EventRuns.AppliedIfStorable(SubnetKind, self, a, n, e)
  {
    PassedIsApplied(self, a, n, e);
  }

  /** A state that was left without an id is replaced by any such event, whatever its time. */
  lemma BlankStateIsReplaced(self: string, a: HandlerAnswers, n: Node, e: Event)
    requires Checked(self, a, e) && PreviousReady(n, a.broken, e) && e.authEvent.id == ""
    requires var path := Path(SubnetModel, EntityId(a, e)); path in n.states && n.states[path].id == ""
    ensures EventRuns.AppliedIfStorable(SubnetKind, self, a, n, e)
  {
    PassedIsApplied(self, a, n, e);
  }

  /** A subnet event that names a blank grant is applied whatever its time. */
  lemma BlankGrantIsApplied(self: string, a: HandlerAnswers, n: Node, e: Event)
    requires Checked(self, a, e) && PreviousReady(n, a.broken, e)
    requires NamesBlankGrant(a.process, Store(n.events, a.broken), e)
    ensures EventRuns.AppliedIfStorable(SubnetKind, self, a, n, e)
  {
    PassedIsApplied(self, a, n, e);
  }

  // ---------------------------------------------------------------------------------------------
  // Exactly the risky deliveries may fail to keep the states progressing.

  ghost predicate AlwaysKeeps(kind: Kind, self: string, e: Event, stored: bool, blankGrant: bool) {
    forall a: HandlerAnswers, n: Node, universe: map<string, Event>
      | Meets(kind, self, a, n, e, universe, stored, blankGrant)
      :: Keeps(kind, self, a, n, e, universe)
  }

  predicate Meets(kind: Kind, self: string, a: HandlerAnswers, n: Node, e: Event, universe: map<string, Event>,
                  stored: bool, blankGrant: bool) {
    && Consistent(n, universe) && Sent(self, a, e, universe)
    && stored == (Path(kind.Model(), EntityId(a, e)) in n.states)
    && blankGrant == NamesBlankGrant(a.process, Store(n.events, a.broken), e)
  }

  /** An event that some node may accept. */
  predicate Deliverable(kind: Kind, self: string, e: Event) {
    && e.id != "" && e.signed && e.error == "" && e.validator != self
    && e.id != e.previousEvent.id && e.id != e.authEvent.id
    && 0 < e.timestamp < 0x8000_0000_0000_0000 - 15000 && (kind.TopicKind? ==> !OutsideWindow(e))
  }

  function OldEvent(id: string): Event {
    Event(id, NO_PAYLOAD, 0, 0, NO_PATH, NO_PATH, "", "", true, None, Some(true), "")
  }

  /** An id that is longer than those the event names. */
  function OtherId(e: Event): string {
    e.id + e.previousEvent.id + e.authEvent.id + "s"
  }

  /** A node that holds the named events and, at the event's path, a state of the given time and hash. */
  function Holding(kind: Kind, e: Event, timestamp: uint64, hash: string): Node {
    var named := map id | id in {e.previousEvent.id, e.authEvent.id} && id != "" :: OldEvent(id);
    var id := if e.payload.data.id == "" then "x" else e.payload.data.id;
    Node(map[Path(kind.Model(), id) := Entity("x", OtherId(e), 0, Some(0), "")],
         named[OtherId(e) := OldEvent(OtherId(e)).(timestamp := timestamp, hash := hash)], map[])
  }

  function Granting(e: Event, blankGrant: bool): HandlerAnswers {
    var auth := Authorization(if blankGrant then "" else "a", "", Some(MEMBER_PRIVILEDGE), Some(0));
    var current := Authorization("c", OtherId(e) + "c", None, Some(0x7FFF_FFFF_FFFF_FFFF));
    HandlerAnswers(
      Answers(true, true, "", Some(""), Found(()), Unreachable, Some([current]), None, None, Found(auth), true, true,
              SyncFailed),
      "x", {}, false, false, "")
  }

  lemma HoldingIsConsistent(kind: Kind, e: Event, timestamp: uint64, hash: string)
    requires e.id != "" && e.id != e.previousEvent.id && e.id != e.authEvent.id
    ensures var n := Holding(kind, e, timestamp, hash); Consistent(n, n.events[e.id := e])
  {
    assert |OtherId(e)| > |e.id| && |OtherId(e)| > |e.previousEvent.id| && |OtherId(e)| > |e.authEvent.id|;
  }

  lemma HoldingMeets(kind: Kind, self: string, e: Event, timestamp: uint64, hash: string, blankGrant: bool)
    requires Deliverable(kind, self, e) && (blankGrant ==> e.authEvent.id != "")
    ensures var n := Holding(kind, e, timestamp, hash);
      && Meets(kind, self, Granting(e, blankGrant), n, e, n.events[e.id := e], true, blankGrant)
      && Checked(self, Granting(e, blankGrant), e) && PreviousReady(n, {}, e)
  {
    HoldingIsConsistent(kind, e, timestamp, hash);
    assert |OtherId(e)| > |e.id| && |OtherId(e)| > |e.previousEvent.id| && |OtherId(e)| > |e.authEvent.id|;
  }

  /** A state of the event's own time and hash is no older than the event; applied, the event rolls it back. */
  lemma AppliedRollsBack(kind: Kind, self: string, e: Event, blankGrant: bool)
    requires Deliverable(kind, self, e)
    requires var (a, n) := (Granting(e, blankGrant), Holding(kind, e, e.timestamp, e.hash));
      var (h, path) := (Handle(kind, self, a, n, e), Path(kind.Model(), EntityId(a, e)));
      path in h.node.states && h.node.states[path].eventId == e.id
    ensures var n := Holding(kind, e, e.timestamp, e.hash);
      !Keeps(kind, self, Granting(e, blankGrant), n, e, n.events[e.id := e])
  {
    var n := Holding(kind, e, e.timestamp, e.hash);
    assert |OtherId(e)| > |e.id|;
    MoreRecentIsStrictTotalOrder(e.hash, ToInt(e.timestamp), e.hash, ToInt(e.timestamp), "", 0);
  }

  /** An update without an id is stored without one. */
  lemma BlankUpdateFails(self: string, e: Event)
    requires Deliverable(SubnetKind, self, e) && e.authEvent.id == "" && e.payload.data.id == ""
    requires e.payload.data.privilege.Some?
    ensures var n := Holding(SubnetKind, e, 0, "");
      !Keeps(SubnetKind, self, Granting(e, false), n, e, n.events[e.id := e])
  {
    var a, n := Granting(e, false), Holding(SubnetKind, e, 0, "");
    HoldingMeets(SubnetKind, self, e, 0, "", false);
    UngrantedIsApplied(self, a, n, e);
    var path := Path(SubnetModel, "x");
    assert Handle(SubnetKind, self, a, n, e).node.states[path].id == "";
  }

  /** A blank grant lets an event roll back a state that it does not follow. */
  lemma BlankGrantFails(self: string, e: Event)
    requires Deliverable(SubnetKind, self, e) && e.authEvent.id != "" && e.payload.data.privilege.Some?
    ensures var n := Holding(SubnetKind, e, e.timestamp, e.hash);
      !Keeps(SubnetKind, self, Granting(e, true), n, e, n.events[e.id := e])
  {
    var a, n := Granting(e, true), Holding(SubnetKind, e, e.timestamp, e.hash);
    HoldingMeets(SubnetKind, self, e, e.timestamp, e.hash, true);
    BlankGrantIsApplied(self, a, n, e);
    AppliedRollsBack(SubnetKind, self, e, true);
  }

  /** The grant that the event names there is superseded, by an authorization without an event. */
  lemma GrantingSupersedes(kind: Kind, e: Event, timestamp: uint64, hash: string, blankGrant: bool)
    requires e.id != "" && e.id != e.authEvent.id && e.authEvent.id != "" &&
      0 < e.timestamp < 0x8000_0000_0000_0000 - 15000 && !OutsideWindow(e)
    ensures var a, store := Granting(e, blankGrant).process, Store(Holding(kind, e, timestamp, hash).events, {});
      && GrantComes(a, store, e) && LocalGrantAdmits(a, store, e)
      && PreviousComes(a, store, e) && PreviousSigned(a, store, e, Some(store.events[e.authEvent.id]))
  {
    assert |OtherId(e)| > |e.authEvent.id| && |OtherId(e)| > |e.previousEvent.id|;
  }

  /** So does the absence of a data id from a topic event, as when its creation is delivered again. */
  lemma BlankTopicFails(self: string, e: Event, blankGrant: bool)
    requires Deliverable(TopicKind, self, e) && e.authEvent.id != "" && e.payload.data.id == ""
    ensures var n := Holding(TopicKind, e, e.timestamp, e.hash);
      !Keeps(TopicKind, self, Granting(e, blankGrant), n, e, n.events[e.id := e])
  {
    var a, n := Granting(e, blankGrant), Holding(TopicKind, e, e.timestamp, e.hash);
    HoldingMeets(TopicKind, self, e, e.timestamp, e.hash, blankGrant);
    GrantingSupersedes(TopicKind, e, e.timestamp, e.hash, blankGrant);
    EventEffects.SupersededGrantChangesTopic(self, a, n, e);
    AppliedRollsBack(TopicKind, self, e, blankGrant);
  }

  lemma RiskyMayFail(kind: Kind, self: string, e: Event, blankGrant: bool) returns (a: HandlerAnswers, n: Node)
    requires Deliverable(kind, self, e) && (blankGrant ==> e.authEvent.id != "") && Risky(kind, e, true, blankGrant)
    ensures Meets(kind, self, a, n, e, n.events[e.id := e], true, blankGrant)
    ensures !Keeps(kind, self, a, n, e, n.events[e.id := e])
  {
    var older := kind.SubnetKind? && e.authEvent.id == "";
    a := Granting(e, blankGrant);
    n := if older then Holding(kind, e, 0, "") else Holding(kind, e, e.timestamp, e.hash);
    HoldingMeets(kind, self, e, if older then 0 else e.timestamp, if older then "" else e.hash, blankGrant);
    if older {
      BlankUpdateFails(self, e);
    } else if kind.SubnetKind? {
      BlankGrantFails(self, e);
    } else {
      BlankTopicFails(self, e, blankGrant);
    }
  }

  /**
   * Whatever the node and the answers, a delivery keeps the states progressing if and only if the local state is read
   * and keeps its id.
   */
  lemma KeptIffNotRisky(kind: Kind, self: string, e: Event, stored: bool, blankGrant: bool)
    requires Deliverable(kind, self, e) && (blankGrant ==> e.authEvent.id != "")
    ensures AlwaysKeeps(kind, self, e, stored, blankGrant) <==> !Risky(kind, e, stored, blankGrant)
  {
    if Risky(kind, e, stored, blankGrant) {
      var a, n := RiskyMayFail(kind, self, e, blankGrant);
      assert Meets(kind, self, a, n, e, n.events[e.id := e], stored, blankGrant);
    } else {
      forall a: HandlerAnswers, n: Node, universe: map<string, Event>
        | Meets(kind, self, a, n, e, universe, stored, blankGrant)
        ensures Keeps(kind, self, a, n, e, universe)
      {
        StepProgresses(kind, self, a, n, e, universe);
      }
    }
  }

  // ---------------------------------------------------------------------------------------------
  // Runs.

  datatype Delivery = Delivery(kind: Kind, event: Event, answers: HandlerAnswers)

  /** The node after a run. After a panic it goes on with what was stored. */
  function Run(self: string, n: Node, run: seq<Delivery>): Node {
    if run == [] then n
    else
      var d := run[|run| - 1];
      Handle(d.kind, self, d.answers, Run(self, n, run[..|run| - 1]), d.event).node
  }

  predicate GuardedRun(self: string, n: Node, run: seq<Delivery>, universe: map<string, Event>) {
    run == [] ||
    (GuardedRun(self, n, run[..|run| - 1], universe) &&
     var d := run[|run| - 1];
     Sent(self, d.answers, d.event, universe) && !Unguarded(d.kind, d.answers, Run(self, n, run[..|run| - 1]), d.event))
  }

  lemma ProgressIsTransitive(n: Node, m: Node, k: Node, universe: map<string, Event>)
    requires Progress(n, m, universe) && Progress(m, k, universe)
    ensures Progress(n, k, universe)
  {
    forall p | p in n.states
      ensures p in k.states && k.states[p].eventId in universe
      ensures k.states[p] == n.states[p] || Newer(universe[n.states[p].eventId], universe[k.states[p].eventId])
    {
      var e0, e1, e2 := universe[n.states[p].eventId], universe[m.states[p].eventId], universe[k.states[p].eventId];
      MoreRecentIsStrictTotalOrder(
        e0.hash, ToInt(e0.timestamp), e1.hash, ToInt(e1.timestamp), e2.hash, ToInt(e2.timestamp));
    }
  }

  /** Over any run of remote events, panics included, every current state only moves forward in (timestamp, hash). */
  lemma {:induction false} RunProgresses(self: string, n: Node, run: seq<Delivery>, universe: map<string, Event>)
    requires Consistent(n, universe) && GuardedRun(self, n, run, universe)
    ensures Consistent(Run(self, n, run), universe) && Progress(n, Run(self, n, run), universe)
  {
    if run == [] {
      forall p | p in n.states ensures n.states[p].eventId in universe {
        assert Agrees(n.events[n.states[p].eventId], universe);
      }
    } else {
      var d, m := run[|run| - 1], Run(self, n, run[..|run| - 1]);
      RunProgresses(self, n, run[..|run| - 1], universe);
      StepProgresses(d.kind, self, d.answers, m, d.event, universe);
      ProgressIsTransitive(n, m, Run(self, n, run), universe);
    }
  }
}
