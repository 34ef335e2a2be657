/** What the handlers of remote events leave in the stores, stated on what is sent, stored and answered. */
module EventEffects {
  import opened Wrappers
  import opened Entities
  import opened DataStates
  import opened EventProcessing
  import opened EventHandling
  import opened EventConditions
  import EventRuns

  /** The event's data as the handler completes them. */
  function Completed(kind: Kind, e: Event): Entity {
    var data := e.payload.data;
    data.(eventId := e.id, timestamp := if kind.TopicKind? then e.payload.timestamp else data.timestamp)
  }

  /** The state that they become: an update of a subnet keeps the id in its data, everything else gets the path's. */
  function NewState(kind: Kind, a: HandlerAnswers, n: Node, e: Event): Entity {
    var path := OwnPath(kind, a, e);
    Completed(kind, e).(id := if kind.SubnetKind? && path in n.states then e.payload.data.id else path.id)
  }

  /** Where older data go: a subnet's under the id in them, also if there is none. */
  function HistoricPath(kind: Kind, a: HandlerAnswers, e: Event): Path {
    if kind.SubnetKind? then Path(SubnetModel, e.payload.data.id) else OwnPath(kind, a, e)
  }

  /** The event as it is stored once it is decided: all it brought stays. */
  function Decided(e: Event, error: string): Event {
    e.(error := if error == "" then e.error else error, isValid := Some(error == ""), synced := Some(true))
  }

  /** Unless an event that is fetched along with it has its id. */
  predicate IsStoredAs(kind: Kind, a: HandlerAnswers, n: Node, e: Event, m: Node, error: string) {
    IsAlone(a.process, Store(n.events, a.broken), e, GrantOf(kind, a, n, e)) ==>
      e.id in m.events && m.events[e.id] == Decided(e, error)
  }

  /** A path of the entity's own model that no fetched state is queued at. */
  predicate IsOwnModel(kind: Kind, e: Event, q: Path) {
    q.model == kind.Model() && q != e.previousEvent
  }

  /** The last state fetched with the previous event is kept as history. */
  predicate FetchedStays(a: HandlerAnswers, n: Node, e: Event, m: Node) {
    FetchesAt(a.process, Store(n.events, a.broken), e, e.previousEvent) && !e.previousEvent.model.AuthModel? ==>
      e.previousEvent in m.historic && m.historic[e.previousEvent] == Raw(LastState(a.process))
  }

  predicate SameAt(n: Node, m: Node, q: Path) {
    (q in m.historic <==> q in n.historic) && (q in m.historic ==> m.historic[q] == n.historic[q])
  }

  lemma OwnDataAre(kind: Kind, a: HandlerAnswers, n: Node, e: Event)
    ensures OwnPath(kind, a, e) == Path(kind.Model(), EntityId(a, e))
    ensures EntityData(kind, e) == Completed(kind, e)
    ensures NewStates(n.states, map[OwnPath(kind, a, e) := EventRuns.OwnState(kind, a, e)]) ==
      map[OwnPath(kind, a, e) := NewState(kind, a, n, e)]
  {
  }

  // ---------------------------------------------------------------------------------------------
  // From ProcessEvent's verdict to the stores.

  /** A handler whose event was accepted marks it, and queues its data where they belong. */
  lemma MarkedAndQueued(kind: Kind, a: HandlerAnswers, n: Node, e: Event, b: Buffer, recent: bool, error: string)
    requires e.id != "" && b.current == map[] && EventRuns.IsSigned(b, e.id)
    requires AcceptedBuffer(a.process, Store(n.events, a.broken), e, GrantOf(kind, a, n, e), b)
    ensures var s := Apply(kind, a, e, recent, error, b);
      && s.Go? && !EventsFail(s.buffer.events)
      && s.buffer.current == (if error == "" && recent
           then map[OwnPath(kind, a, e) := EventRuns.OwnState(kind, a, e)] else map[])
      && s.buffer.historic == (if error == "" && !recent
           then b.historic[HistoricPath(kind, a, e) := EntityValue(Completed(kind, e))] else b.historic)
      && (IsAlone(a.process, Store(n.events, a.broken), e, GrantOf(kind, a, n, e)) ==>
            e.id in s.buffer.events && s.buffer.events[e.id] == Decided(e, error))
  {
    OwnDataAre(kind, a, n, e);
    EventRuns.ApplyQueues(kind, a, e, recent, error, b);
    var s := Apply(kind, a, e, recent, error, b);
    assert forall k | k in s.buffer.events :: s.buffer.events[k].signed;
  }

  /** The handler on an event that passes: its settlement with the error that its data have, if any. */
  lemma PassesSettles(kind: Kind, self: string, a: HandlerAnswers, n: Node, e: Event, recent: bool)
    returns (b: Buffer)
    requires e.validator != self && Passes(kind, a, n, e, recent)
    ensures b.current == map[] && EventRuns.IsSigned(b, e.id)
    ensures AcceptedBuffer(a.process, Store(n.events, a.broken), e, GrantOf(kind, a, n, e), b)
    ensures var s := Apply(kind, a, e, recent, a.dataError, b);
      Handle(kind, self, a, n, e) == if s.Go? then Finish(n, s.buffer, "") else Unwind(n, s.buffer)
  {
    AdmissionIff(kind, a.process, e);
    LocalIff(kind, a, n, e);
    AcceptedIff(kind, self, a, n, e, recent);
    VerdictOnAccepted(kind, self, a, n, e, recent);
    var outcome := EventRuns.HandlerOutcome(kind, self, a, n, e);
    b := outcome.1;
    assert Handle(kind, self, a, n, e) == Settle(kind, self, a, n, e, outcome.0, b);
  }

  lemma NoHistoryAfter(kind: Kind, a: HandlerAnswers, n: Node, e: Event, b: Buffer, m: Node)
    requires AcceptedBuffer(a.process, Store(n.events, a.broken), e, GrantOf(kind, a, n, e), b)
    requires m.historic == n.historic + b.historic
    ensures FetchedStays(a, n, e, m) && forall q | IsOwnModel(kind, e, q) :: SameAt(n, m, q)
  {
  }

  lemma HistoryAfter(kind: Kind, a: HandlerAnswers, n: Node, e: Event, b: Buffer, path: Path, own: State, m: Node)
    requires AcceptedBuffer(a.process, Store(n.events, a.broken), e, GrantOf(kind, a, n, e), b)
    requires m.historic == n.historic + b.historic[path := own]
    ensures path in m.historic && m.historic[path] == own
    ensures e.previousEvent != path ==> FetchedStays(a, n, e, m)
    ensures forall q | IsOwnModel(kind, e, q) && q != path :: SameAt(n, m, q)
  {
  }

  lemma OwnStateCommits(kind: Kind, a: HandlerAnswers, n: Node, e: Event, b: Buffer)
    requires b.current == map[OwnPath(kind, a, e) := EventRuns.OwnState(kind, a, e)] && !EventsFail(b.events)
    ensures if EventRuns.Storable(kind, a, n, e) then
        Commit(n, b).Some? && Committed(n, b).states == n.states[OwnPath(kind, a, e) := NewState(kind, a, n, e)]
      else Finish(n, b, "") == Crashed(n)
  {
    OwnDataAre(kind, a, n, e);
    var path, own := OwnPath(kind, a, e), EventRuns.OwnState(kind, a, e);
    EventRuns.AppliedStates(n, b, map[], path, own);
    assert EventRuns.Storable(kind, a, n, e) <==> !Uncommittable(n.states, path, b.current[path]);
    assert n.states + map[path := NewState(kind, a, n, e)] == n.states[path := NewState(kind, a, n, e)];
  }

  /** An event that passes as recent, with valid data, is applied; or its data cannot be committed, and nothing is. */
  lemma RecentIsApplied(kind: Kind, self: string, a: HandlerAnswers, n: Node, e: Event)
    requires e.validator != self && Passes(kind, a, n, e, true) && a.dataError == ""
    ensures var h := Handle(kind, self, a, n, e);
      if EventRuns.Storable(kind, a, n, e) then
        && h.Done? && h.error == "" && h.node.states == n.states[OwnPath(kind, a, e) := NewState(kind, a, n, e)]
        && IsStoredAs(kind, a, n, e, h.node, "") && FetchedStays(a, n, e, h.node)
        && forall q | IsOwnModel(kind, e, q) :: SameAt(n, h.node, q)
      else h == Crashed(n)
  {
    var b := PassesSettles(kind, self, a, n, e, true);
    MarkedAndQueued(kind, a, n, e, b, true, "");
    var b1 := Apply(kind, a, e, true, "", b).buffer;
    OwnStateCommits(kind, a, n, e, b1);
    if EventRuns.Storable(kind, a, n, e) {
      NoHistoryAfter(kind, a, n, e, b, Committed(n, b1));
    }
  }

  /** An event that passes as older, with valid data, changes no state, and its data are kept as history. */
  lemma OlderIsKept(kind: Kind, self: string, a: HandlerAnswers, n: Node, e: Event)
    requires e.validator != self && Passes(kind, a, n, e, false) && a.dataError == ""
    ensures var h, path := Handle(kind, self, a, n, e), HistoricPath(kind, a, e);
      && h.Done? && h.error == "" && h.node.states == n.states && IsStoredAs(kind, a, n, e, h.node, "")
      && path in h.node.historic && h.node.historic[path] == EntityValue(Completed(kind, e))
      && (e.previousEvent != path ==> FetchedStays(a, n, e, h.node))
      && forall q | IsOwnModel(kind, e, q) && q != path :: SameAt(n, h.node, q)
  {
    var b := PassesSettles(kind, self, a, n, e, false);
    MarkedAndQueued(kind, a, n, e, b, false, "");
    var b1 := Apply(kind, a, e, false, "", b).buffer;
    EventRuns.CommittedStates(n, b1);
    HistoryAfter(kind, a, n, e, b, HistoricPath(kind, a, e), EntityValue(Completed(kind, e)), Committed(n, b1));
  }

  /** An event that passes with invalid data changes no state and is stored with the error. */
  lemma InvalidIsMarked(kind: Kind, self: string, a: HandlerAnswers, n: Node, e: Event, recent: bool)
    requires e.validator != self && Passes(kind, a, n, e, recent) && a.dataError != ""
    ensures var h := Handle(kind, self, a, n, e);
      && h.Done? && h.error == "" && h.node.states == n.states && IsStoredAs(kind, a, n, e, h.node, a.dataError)
      && FetchedStays(a, n, e, h.node)
      && forall q | IsOwnModel(kind, e, q) :: SameAt(n, h.node, q)
  {
    var b := PassesSettles(kind, self, a, n, e, recent);
    MarkedAndQueued(kind, a, n, e, b, recent, a.dataError);
    var b1 := Apply(kind, a, e, recent, a.dataError, b).buffer;
    EventRuns.CommittedStates(n, b1);
    NoHistoryAfter(kind, a, n, e, b, Committed(n, b1));
  }

  // ---------------------------------------------------------------------------------------------
  // Exactly when a state changes.

  /** The data can be committed: a first state has an id, and an updated subnet a privilege on both sides. */
  predicate CanStore(kind: Kind, a: HandlerAnswers, n: Node, e: Event) {
    var path := OwnPath(kind, a, e);
    if path !in n.states then path.id != ""
    else kind.TopicKind? || (n.states[path].privilege.Some? && e.payload.data.privilege.Some?)
  }

  predicate Differs(kind: Kind, a: HandlerAnswers, n: Node, e: Event) {
    var path := OwnPath(kind, a, e);
    path in n.states ==> n.states[path] != NewState(kind, a, n, e)
  }

  lemma ChangesIff(kind: Kind, self: string, a: HandlerAnswers, n: Node, e: Event)
    requires e.validator != self && e.id != ""
    ensures Handle(kind, self, a, n, e).node.states != n.states <==>
      Passes(kind, a, n, e, true) && a.dataError == "" && CanStore(kind, a, n, e) && Differs(kind, a, n, e)
    ensures Handle(kind, self, a, n, e).node.states != n.states ==>
      Handle(kind, self, a, n, e).node.states == n.states[OwnPath(kind, a, e) := NewState(kind, a, n, e)]
  {
    if Handle(kind, self, a, n, e).node.states != n.states {
      EventRuns.StatesChangeIff(kind, self, a, n, e);
      LocalIff(kind, a, n, e);
      AcceptedIff(kind, self, a, n, e, true);
      VerdictOnAccepted(kind, self, a, n, e, true);
    }
    if Passes(kind, a, n, e, true) && a.dataError == "" {
      RecentIsApplied(kind, self, a, n, e);
    }
  }

  /**
   * A remote subnet event changes a state if and only if it is valid, encodes, is signed by its agent if one is named,
   * has its previous event, names no grant and compares as recent and not stale, or names a blank grant, and its data
   * are valid, can be committed and differ from the state; they then are the subnet's state and nothing else changes.
   */
  lemma SubnetChangesIff(self: string, a: HandlerAnswers, n: Node, e: Event)
    requires e.validator != self && e.id != ""
    ensures var store, after := Store(n.events, a.broken), Handle(SubnetKind, self, a, n, e).node.states;
      && (after != n.states <==>
            && e.signed && a.process.valid && a.process.encodes && SubnetComes(a.process, e) && !a.stateBroken
            && (a.process.agent == "" || a.process.signer == Some(a.process.agent))
            && PreviousComes(a.process, store, e) && PreviousSigned(a.process, store, e, None)
            && (if e.authEvent.id == "" then Compares(SubnetKind, a, n, e, true)
                else NamesBlankGrant(a.process, store, e))
            && a.dataError == "" && CanStore(SubnetKind, a, n, e) && Differs(SubnetKind, a, n, e))
      && (after != n.states ==> after == n.states[OwnPath(SubnetKind, a, e) := NewState(SubnetKind, a, n, e)])
  {
    ChangesIff(SubnetKind, self, a, n, e);
  }

  /**
   * A remote topic event does if and only if it is valid and within its time, encodes, is signed by its agent, has its
   * previous event, is granted by a superseded authorization that the local grant admits, compares as recent and not
   * stale to a state that is looked up only by the id in its data, and its data are valid, can be committed and differ.
   */
  lemma TopicChangesIff(self: string, a: HandlerAnswers, n: Node, e: Event)
    requires e.validator != self && e.id != ""
    ensures var store, after := Store(n.events, a.broken), Handle(TopicKind, self, a, n, e).node.states;
      && (after != n.states <==>
            && e.signed && a.process.valid && a.process.encodes && InWindow(e) && SubnetComes(a.process, e)
            && a.process.signer == Some(a.process.agent) && LocalReads(TopicKind, a, n, e)
            && PreviousComes(a.process, store, e) && GrantComes(a.process, store, e)
            && PreviousSigned(a.process, store, e, Some(n.events[e.authEvent.id]))
            && LocalGrantAdmits(a.process, store, e) && Compares(TopicKind, a, n, e, true)
            && a.dataError == "" && CanStore(TopicKind, a, n, e) && Differs(TopicKind, a, n, e))
      && (after != n.states ==> after == n.states[OwnPath(TopicKind, a, e) := NewState(TopicKind, a, n, e)])
  {
    ChangesIff(TopicKind, self, a, n, e);
  }

  /** Without an id in its data a topic event's local state is not asked for: the topic changes whatever is stored. */
  lemma SupersededGrantChangesTopic(self: string, a: HandlerAnswers, n: Node, e: Event)
    requires e.validator != self && e.payload.data.id == "" && a.derivedId != ""
    requires IsAdmitted(TopicKind, a.process, e) && a.dataError == ""
    requires var store := Store(n.events, a.broken);
      && PreviousComes(a.process, store, e) && GrantComes(a.process, store, e) && LocalGrantAdmits(a.process, store, e)
      && PreviousSigned(a.process, store, e, Some(n.events[e.authEvent.id]))
    ensures var h, path := Handle(TopicKind, self, a, n, e), Path(TopicModel, a.derivedId);
      h.Done? && h.error == "" && h.node.states == n.states[path := NewState(TopicKind, a, n, e)]
  {
    RecentIsApplied(TopicKind, self, a, n, e);
  }

  lemma LocalAccepts(kind: Kind, self: string, a: HandlerAnswers, n: Node, e: Event)
    requires e.validator == self && e.id != "" && e.signed && EMPTY.WithEvent(e).Some?
    requires LocalState(kind, a, n, e).Known?
    ensures EventRuns.AcceptsAsRecent(kind, self, a, n, e) <==> e.authEvent.id == "" || !a.process.authSync.SyncFailed?
  {
  }

  /** The node's own event is applied without any comparison, unless the grant it names cannot be synced. */
  lemma LocalChangesIff(kind: Kind, self: string, a: HandlerAnswers, n: Node, e: Event)
    requires e.validator == self && e.id != ""
    ensures var after := Handle(kind, self, a, n, e).node.states;
      && (after != n.states <==>
            && e.signed && LocalReads(kind, a, n, e) && (e.authEvent.id == "" || !a.process.authSync.SyncFailed?)
            && CanStore(kind, a, n, e) && Differs(kind, a, n, e))
      && (after != n.states ==> after == n.states[OwnPath(kind, a, e) := NewState(kind, a, n, e)])
  {
    EventRuns.StatesChangeIff(kind, self, a, n, e);
    LocalIff(kind, a, n, e);
    if e.signed && LocalReads(kind, a, n, e) {
      LocalAccepts(kind, self, a, n, e);
    }
    OwnDataAre(kind, a, n, e);
    var path, state := OwnPath(kind, a, e), NewState(kind, a, n, e);
    assert n.states + map[path := state] == n.states[path := state];
    assert n.states[path := state] == n.states <==> !Differs(kind, a, n, e);
    if Handle(kind, self, a, n, e).node.states != n.states {
      EventRuns.OnlyAcceptedEventsChangeStates(kind, self, a, n, e);
    }
  }

  /** A topic event's local authorizations cannot be read, or the last one lacks the privilege and is the one named. */
  predicate MayNotWrite(kind: Kind, a: Answers, e: Event) {
    kind.TopicKind? &&
    (a.localAuths.None? || (IsBelowMember(LastListed(a)) && LastListed(a).id == e.authEvent.id))
  }

  /** What is queued for an event that is refused: itself, and the event of its subnet if that was fetched. */
  ghost predicate OnlyAdmitted(a: Answers, e: Event, b: Buffer) {
    && b.current == map[] && b.historic == map[] && KeptById(b.events)
    && (FetchedSubnet(a, e) == {} ==> b.events == map[e.id := Marked(e)])
  }

  lemma RefusedByAdmission(kind: Kind, a: Answers, e: Event)
    requires e.id != "" && e.signed && SubnetComes(a, e) && EMPTY.WithEvent(e).Some? && !IsAdmitted(kind, a, e)
    ensures var s := Admission(a, e, kind.TopicKind?, EMPTY.WithEvent(e).value);
      s.Stop? && s.outcome.Returned? && s.outcome.error != "" && OnlyAdmitted(a, e, s.buffer)
  {
    WindowIff(e);
    KnownSubnet(a, e, EMPTY.WithEvent(e).value);
    AdmissionIff(kind, a, e);
  }

  lemma RefusedByAuthorizations(kind: Kind, a: Answers, store: Store, e: Event, data: LocalData, b: Buffer)
    requires AdmittedBuffer(a, e, b) && MayNotWrite(kind, a, e)
    ensures NoAuthQueued(b)
    ensures var (o, b1) := Resolve(a, store, e, kind.TopicKind?, data, b);
      o.Returned? && o.error != "" && OnlyAdmitted(a, e, b1)
  {
    assert CurrentAuth(a, true) == LastListed(a);
  }

  /** A remote event that is not admitted, or may not be written, fails, and is still stored as it came. */
  lemma RefusedIsStored(kind: Kind, self: string, a: HandlerAnswers, n: Node, e: Event)
    requires e.validator != self && e.id != "" && e.signed && LocalReads(kind, a, n, e) && SubnetComes(a.process, e)
    requires !IsAdmitted(kind, a.process, e) || MayNotWrite(kind, a.process, e)
    ensures var h := Handle(kind, self, a, n, e);
      && h.Done? && h.error != "" && h.node.states == n.states && h.node.historic == n.historic
      && (FetchedSubnet(a.process, e) == {} ==> h.node.events == n.events[e.id := Marked(e)])
  {
    var o, b := RefusedFinishes(kind, self, a, n, e);
    PlainFinish(n, b, o.error);
    assert n.events + map[e.id := Marked(e)] == n.events[e.id := Marked(e)];
  }

  lemma PlainFinish(n: Node, b: Buffer, error: string)
    requires b.current == map[] && b.historic == map[] && KeptById(b.events)
    ensures Finish(n, b, error) == Done(n.(events := n.events + b.events), error)
  {
    assert n.states + NewStates(n.states, map[]) == n.states && n.historic + map[] == n.historic;
  }

  lemma RefusedFinishes(kind: Kind, self: string, a: HandlerAnswers, n: Node, e: Event) returns (o: Outcome, b: Buffer)
    requires e.validator != self && e.id != "" && e.signed && LocalReads(kind, a, n, e) && SubnetComes(a.process, e)
    requires !IsAdmitted(kind, a.process, e) || MayNotWrite(kind, a.process, e)
    ensures o.Returned? && o.error != "" && OnlyAdmitted(a.process, e, b)
    ensures Handle(kind, self, a, n, e) == Finish(n, b, o.error)
  {
    LocalIff(kind, a, n, e);
    AdmissionIff(kind, a.process, e);
    var store, data := Store(n.events, a.broken), LocalDataFor(kind, a, n, LocalOf(kind, a, n, e));
    if !IsAdmitted(kind, a.process, e) {
      RefusedByAdmission(kind, a.process, e);
    } else {
      RefusedByAuthorizations(kind, a.process, store, e, data,
                              Admission(a.process, e, kind.TopicKind?, EMPTY.WithEvent(e).value).buffer);
    }
    var outcome := EventRuns.HandlerOutcome(kind, self, a, n, e);
    o, b := outcome.0, outcome.1;
    assert Handle(kind, self, a, n, e) == Settle(kind, self, a, n, e, o, b);
  }

  // ---------------------------------------------------------------------------------------------
  // Exactly what becomes history.

  lemma AdmissionHistory(a: Answers, e: Event, agentRequired: bool, b: Buffer)
    ensures Admission(a, e, agentRequired, b).buffer.historic == b.historic
  {
  }

  lemma PreviousHistory(a: Answers, store: Store, e: Event, b: Buffer, q: Path)
    requires b.historic == map[]
    ensures var b1 := KnowPrevious(a, store, e, b).buffer;
      q in b1.historic ==> FetchesAt(a, store, e, q) && b1.historic[q] == Raw(LastState(a))
  {
    if a.peerPrevious.Some? {
      var peer := a.peerPrevious.value;
      HistoricsElsewhere(b.Written(peer.event), e.previousEvent, peer.states);
    }
  }

  lemma AuthHistory(a: Answers, store: Store, e: Event, agentRequired: bool, upToDate: bool, b: Buffer, q: Path)
    requires NoAuthQueued(b) && !q.model.AuthModel?
    ensures var b1 := KnowAuth(a, store, e, agentRequired, upToDate, b).buffer;
      (q in b1.historic <==> q in b.historic) && (q in b.historic ==> b1.historic[q] == b.historic[q])
  {
    var found := FindAuth(a, store, e, upToDate, !agentRequired, b);
    if found.Go? {
      CheckHistory(a, e, CurrentAuth(a, agentRequired), found.next, upToDate, b, q);
    }
  }

  lemma CheckHistory(a: Answers, e: Event, current: Authorization, auths: Auths, upToDate: bool, b: Buffer, q: Path)
    requires auths.event.Some? && NoAuthQueued(b) && !q.model.AuthModel?
    ensures var b1 := CheckAuth(a, e, current, auths, upToDate, b).buffer;
      (q in b1.historic <==> q in b.historic) && (q in b.historic ==> b1.historic[q] == b.historic[q])
  {
  }

  lemma ConcludeHistory(a: Answers, store: Store, e: Event, agentRequired: bool, data: LocalData, previous: Previous,
                        auths: Auths, b: Buffer)
    ensures Conclude(a, store, e, agentRequired, data, previous, auths, b).1.historic == b.historic
  {
  }

  lemma ResolveHistory(a: Answers, store: Store, e: Event, agentRequired: bool, data: LocalData, b: Buffer, q: Path)
    requires NoAuthQueued(b) && b.historic == map[] && !q.model.AuthModel?
    ensures var b1 := Resolve(a, store, e, agentRequired, data, b).1;
      q in b1.historic ==> FetchesAt(a, store, e, q) && b1.historic[q] == Raw(LastState(a))
  {
    PreviousQueuesNoAuth(a, store, e, b);
    PreviousHistory(a, store, e, b, q);
    var p := KnowPrevious(a, store, e, b);
    if p.Go? {
      AuthHistory(a, store, e, agentRequired, p.next.upToDate, p.buffer, q);
      var s := KnowAuth(a, store, e, agentRequired, p.next.upToDate, p.buffer);
      if s.Go? {
        ConcludeHistory(a, store, e, agentRequired, data, p.next, s.next, s.buffer);
      }
    }
  }

  /** ProcessEvent queues nothing as history but grants, and the fetched states of which the last one stays. */
  lemma ProcessHistory(self: string, a: Answers, store: Store, e: Event, agentRequired: bool, data: LocalData,
                       b: Buffer, q: Path)
    requires NoAuthQueued(b) && b.historic == map[] && !q.model.AuthModel?
    ensures var b1 := Process(self, a, store, e, agentRequired, data, b).1;
      q in b1.historic ==> FetchesAt(a, store, e, q) && b1.historic[q] == Raw(LastState(a))
  {
    AdmissionHistory(a, e, agentRequired, b);
    EventRuns.AdmissionKeepsCurrent(a, e, agentRequired, b);
    ResolveHistory(a, store, e, agentRequired, data, Admission(a, e, agentRequired, b).buffer, q);
  }

  /** What is queued at the path when the handler settles, besides its own older data. */
  ghost predicate OnlyFetched(a: Answers, store: Store, e: Event, b: Buffer, q: Path) {
    q in b.historic ==> FetchesAt(a, store, e, q) && b.historic[q] == Raw(LastState(a))
  }

  /** A commit stores all queued history, or none; and it stores none next to a queued pointer. */
  lemma CommittedHistory(n: Node, b: Buffer, q: Path)
    requires !SameAt(n, Committed(n, b), q)
    ensures q in b.historic && q in Committed(n, b).historic && Committed(n, b).historic[q] == b.historic[q]
    ensures EventRuns.OnlyPointers(b.current) ==> b.current == map[]
  {
    if p :| p in b.current && b.current[p].AuthPointer? {
      assert Uncommittable(n.states, p, b.current[p]);
    }
  }

  lemma ApplyHistory(kind: Kind, a: HandlerAnswers, e: Event, isRecent: bool, error: string, b: Buffer, q: Path)
    ensures var b1 := Apply(kind, a, e, isRecent, error, b).buffer;
      && (q in b1.historic && (q !in b.historic || b1.historic[q] != b.historic[q]) ==>
            error == "" && !isRecent && q == HistoricPath(kind, a, e) &&
            b1.historic[q] == EntityValue(Completed(kind, e)))
      && (b1.historic != b.historic ==> b1.current == b.current)
  {
  }

  /** The event's own older data are written at the path. */
  ghost predicate WritesOwn(kind: Kind, self: string, a: HandlerAnswers, e: Event, o: Outcome, b: Buffer, m: Node,
                            q: Path) {
    && q == HistoricPath(kind, a, e) && q in m.historic && m.historic[q] == EntityValue(Completed(kind, e))
    && o.Returned? && o.error == "" && o.previousUpToDate && (kind.TopicKind? ==> o.authUpToDate) && !o.isRecent
    && Verdict(kind, self, a, e, o.auth) == Some("") && b.current == map[]
  }

  lemma SettleHistory(kind: Kind, self: string, a: HandlerAnswers, n: Node, e: Event, o: Outcome, b: Buffer, q: Path)
    requires OnlyFetched(a.process, Store(n.events, a.broken), e, b, q) && EventRuns.OnlyPointers(b.current)
    requires !SameAt(n, Settle(kind, self, a, n, e, o, b).node, q)
    ensures var m := Settle(kind, self, a, n, e, o, b).node;
      || (q in m.historic && FetchesAt(a.process, Store(n.events, a.broken), e, q) &&
          m.historic[q] == Raw(LastState(a.process)))
      || WritesOwn(kind, self, a, e, o, b, m, q)
  {
    var b1, applied := SettleCommits(kind, self, a, n, e, o, b);
    CommittedHistory(n, b1, q);
    if applied {
      ApplyHistory(kind, a, e, o.isRecent, Verdict(kind, self, a, e, o.auth).value, b, q);
    }
  }

  /** A settlement commits what was queued before it, or what applying the event leaves. */
  lemma SettleCommits(kind: Kind, self: string, a: HandlerAnswers, n: Node, e: Event, o: Outcome, b: Buffer)
    returns (b1: Buffer, applied: bool)
    ensures Settle(kind, self, a, n, e, o, b).node == Committed(n, b1)
    ensures if applied then
        && o.Returned? && o.error == "" && o.previousUpToDate && (kind.TopicKind? ==> o.authUpToDate)
        && Verdict(kind, self, a, e, o.auth).Some?
        && b1 == Apply(kind, a, e, o.isRecent, Verdict(kind, self, a, e, o.auth).value, b).buffer
      else b1 == b
  {
    applied := o.Returned? && o.error == "" && o.previousUpToDate && (kind.TopicKind? ==> o.authUpToDate) &&
      Verdict(kind, self, a, e, o.auth).Some?;
    b1 := if applied then Apply(kind, a, e, o.isRecent, Verdict(kind, self, a, e, o.auth).value, b).buffer else b;
  }

  /**
   * At the paths of the entity's model a remote event's handler changes history only by states fetched with its
   * previous event, or by the event's own data when it is judged older than the local state and its data are valid.
   */
  lemma HistoryChanges(kind: Kind, self: string, a: HandlerAnswers, n: Node, e: Event, q: Path)
    requires e.validator != self && e.id != "" && q.model == kind.Model()
    requires !SameAt(n, Handle(kind, self, a, n, e).node, q)
    ensures var m := Handle(kind, self, a, n, e).node;
      && q in m.historic
      && ((FetchesAt(a.process, Store(n.events, a.broken), e, q) && m.historic[q] == Raw(LastState(a.process)))
          || (q == HistoricPath(kind, a, e) && m.historic[q] == EntityValue(Completed(kind, e)) &&
              Judged(kind, a, n, e, false) && a.dataError == ""))
  {
    LocalIff(kind, a, n, e);
    var b0 := EMPTY.WithEvent(e).value;
    if !LocalReads(kind, a, n, e) {
      CommittedHistory(n, b0, q);
    } else {
      var store, local := Store(n.events, a.broken), LocalState(kind, a, n, e).state;
      var data := LocalDataFor(kind, a, n, local);
      var (o, b) := EventRuns.HandlerOutcome(kind, self, a, n, e);
      ProcessHistory(self, a.process, store, e, kind.TopicKind?, data, b0, q);
      EventRuns.ProcessQueuesPointers(self, a.process, store, e, kind.TopicKind?, data, b0);
      SettleHistory(kind, self, a, n, e, o, b, q);
      if WritesOwn(kind, self, a, e, o, b, Handle(kind, self, a, n, e).node, q) {
        VerdictOnAccepted(kind, self, a, n, e, false);
        AcceptedIff(kind, self, a, n, e, false);
      }
    }
  }
}
