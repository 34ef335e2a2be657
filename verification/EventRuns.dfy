/** What runs of the handlers keep: authorization, monotonicity of the current state, and order independence. */
module EventRuns {
  import opened Wrappers
  import opened Entities
  import opened DataStates
  import opened EventProcessing
  import opened EventHandling

  // ---------------------------------------------------------------------------------------------
  // Authorization.

  /** The authorization of an accepted event, and where its grant was found. */
  ghost predicate Grants(a: Answers, store: Store, e: Event, grant: Event, auth: Authorization) {
    || (store.Get(e.authEvent.id) == Found(grant) && grant.synced == Some(true) && a.authByEvent == Found(auth))
    || (store.Get(e.authEvent.id).Missing? && a.peerAuth.Some? && a.peerAuth.value.event == Some(grant) &&
        Some(auth) in a.peerAuth.value.states)
  }

  lemma {:induction false} LastReadableIsListed(states: seq<Option<Authorization>>)
    ensures LastReadable(states).priviledge.Some? ==> Some(LastReadable(states)) in states
  {
    if states != [] && states[|states| - 1].None? {
      LastReadableIsListed(states[..|states| - 1]);
    }
  }

  /** What the auth stage has checked and queued when it lets an event with a required agent pass. */
  ghost predicate Authorized(a: Answers, store: Store, e: Event, grant: Event, auth: Authorization, b: Buffer) {
    var current := CurrentAuth(a, true);
    var path := Path(AuthModel, auth.id);
    && e.authEvent.id != "" && Grants(a, store, e, grant, auth) && grant.timestamp < e.timestamp
    && a.authSigned && auth.priviledge.Some? && auth.priviledge.value >= MEMBER_PRIVILEDGE
    && current.id != auth.id
    && if Supersedes(auth, current) == Some(true) then path in b.current && b.current[path] == AuthPointer(auth)
       else
         && Supersedes(auth, current) == Some(false) && current.timestamp.Some?
         && e.payload.timestamp <= current.timestamp.value && e.timestamp <= current.timestamp.value
         && path in b.historic && b.historic[path] == AuthValue(auth)
  }

  lemma CheckAuthPasses(a: Answers, e: Event, auths: Auths, previousUpToDate: bool, b: Buffer)
    requires auths.event.Some? && Path(AuthModel, auths.state.id) !in b.current
    requires CheckAuth(a, e, CurrentAuth(a, true), auths, previousUpToDate, b).Go?
    ensures var s := CheckAuth(a, e, CurrentAuth(a, true), auths, previousUpToDate, b);
      var current := CurrentAuth(a, true);
      var path := Path(AuthModel, auths.state.id);
      && s.next == auths.(upToDate := true) && auths.event.value.timestamp < e.timestamp
      && a.authSigned && auths.state.priviledge.Some? && auths.state.priviledge.value >= MEMBER_PRIVILEDGE
      && current.id != auths.state.id
      && if Supersedes(auths.state, current) == Some(true) then
           path in s.buffer.current && s.buffer.current[path] == AuthPointer(auths.state)
         else
           && Supersedes(auths.state, current) == Some(false) && current.timestamp.Some?
           && e.payload.timestamp <= current.timestamp.value && e.timestamp <= current.timestamp.value
           && path in s.buffer.historic && s.buffer.historic[path] == AuthValue(auths.state)
  {
  }

  lemma FindAuthFinds(a: Answers, store: Store, e: Event, previousUpToDate: bool, b: Buffer)
    requires FindAuth(a, store, e, previousUpToDate, false, b).Go?
    ensures var auths := FindAuth(a, store, e, previousUpToDate, false, b).next;
      && e.authEvent.id != "" && auths.event.Some?
      && (auths.state.priviledge.Some? ==> Grants(a, store, e, auths.event.value, auths.state))
      && (auths.returned.priviledge.Some? ==>
            store.Get(e.authEvent.id) == Found(auths.event.value) && auths.returned == auths.state)
  {
    if a.peerAuth.Some? {
      LastReadableIsListed(a.peerAuth.value.states);
    }
  }

  lemma AuthStagePasses(a: Answers, store: Store, e: Event, previousUpToDate: bool, b: Buffer)
    requires NoAuthQueued(b)
    requires var s := KnowAuth(a, store, e, true, previousUpToDate, b); s.Go? && s.next.upToDate
    ensures var s := KnowAuth(a, store, e, true, previousUpToDate, b);
      && s.next.event.Some? && Authorized(a, store, e, s.next.event.value, s.next.state, s.buffer)
      && (s.next.returned.priviledge.Some? ==>
            store.Get(e.authEvent.id) == Found(s.next.event.value) && s.next.returned == s.next.state)
  {
    FindAuthFinds(a, store, e, previousUpToDate, b);
    CheckAuthPasses(a, e, FindAuth(a, store, e, previousUpToDate, false, b).next, previousUpToDate, b);
  }

  /** The last stage accepts only what the earlier ones found up to date, and queues nothing then. */
  lemma ConcludeAccepts(a: Answers, store: Store, e: Event, agentRequired: bool, data: LocalData, previous: Previous,
                        auths: Auths, b: Buffer)
    requires var o := Conclude(a, store, e, agentRequired, data, previous, auths, b).0;
      o.Returned? && o.previousUpToDate && o.authUpToDate
    ensures previous.upToDate && auths.upToDate
    ensures Conclude(a, store, e, agentRequired, data, previous, auths, b).1 == b
    ensures Conclude(a, store, e, agentRequired, data, previous, auths, b).0.auth == Some(auths.returned)
  {
  }

  /** No stage before the last one returns both flags set, unless it reports an error. */
  lemma StagesDoNotAccept(a: Answers, store: Store, e: Event, previousUpToDate: bool, b: Buffer)
    requires NoAuthQueued(b)
    ensures var s := KnowPrevious(a, store, e, b); s.Stop? && s.outcome.Returned? ==> !s.outcome.authUpToDate
    ensures var s := KnowAuth(a, store, e, true, previousUpToDate, b); s.Stop? && s.outcome.Returned? ==>
      !s.outcome.authUpToDate
  {
    var found := FindAuth(a, store, e, previousUpToDate, false, b);
    if found.Stop? {
      assert found.outcome.Returned? ==> !found.outcome.authUpToDate;
    } else {
      CheckDoesNotAccept(a, e, CurrentAuth(a, true), found.next, previousUpToDate, b);
    }
  }

  lemma CheckDoesNotAccept(a: Answers, e: Event, current: Authorization, auths: Auths, previousUpToDate: bool,
                           b: Buffer)
    requires auths.event.Some? && Path(AuthModel, auths.state.id) !in b.current
    ensures var s := CheckAuth(a, e, current, auths, previousUpToDate, b);
      s.Stop? && s.outcome.Returned? ==> !s.outcome.authUpToDate
  {
  }

  /** An event accepted with an agent required passed every stage. */
  lemma AcceptedPassedStages(a: Answers, store: Store, e: Event, data: LocalData, b: Buffer)
    requires NoAuthQueued(b)
    requires var o := Resolve(a, store, e, true, data, b).0; o.Returned? && o.previousUpToDate && o.authUpToDate
    ensures var p := KnowPrevious(a, store, e, b);
      p.Go? && p.next.upToDate && NoAuthQueued(p.buffer) &&
      var s := KnowAuth(a, store, e, true, true, p.buffer);
      s.Go? && s.next.upToDate && Resolve(a, store, e, true, data, b).1 == s.buffer &&
      Resolve(a, store, e, true, data, b).0.auth == Some(s.next.returned) &&
      Resolve(a, store, e, true, data, b) == Conclude(a, store, e, true, data, p.next, s.next, s.buffer)
  {
    StagesDoNotAccept(a, store, e, true, b);
    PreviousQueuesNoAuth(a, store, e, b);
    var p := KnowPrevious(a, store, e, b);
    if p.Go? {
      StagesDoNotAccept(a, store, e, p.next.upToDate, p.buffer);
      var s := KnowAuth(a, store, e, true, p.next.upToDate, p.buffer);
      if s.Go? {
        ConcludeAccepts(a, store, e, true, data, p.next, s.next, s.buffer);
      }
    }
  }

  /**
   * A remote event that passes with an agent required was signed by the agent, under a grant that is older
   * than the event, sufficient and correctly signed, and that is queued as current or as historic state.
   */
  lemma AcceptedEventIsAuthorized(self: string, a: Answers, store: Store, e: Event, data: LocalData, b: Buffer)
    returns (grant: Event, auth: Authorization)
    requires NoAuthQueued(b) && e.validator != self
    requires var o := Process(self, a, store, e, true, data, b).0; o.Returned? && o.previousUpToDate && o.authUpToDate
    ensures a.signer == Some(a.agent)
    ensures Authorized(a, store, e, grant, auth, Process(self, a, store, e, true, data, b).1)
    ensures var returned := Process(self, a, store, e, true, data, b).0.auth;
      returned.Some? && (returned.value.priviledge.Some? ==>
        store.Get(e.authEvent.id) == Found(grant) && returned.value == auth)
  {
    AdmissionKeepsCurrent(a, e, true, b);
    var b1 := Admission(a, e, true, b).buffer;
    AcceptedPassedStages(a, store, e, data, b1);
    var p := KnowPrevious(a, store, e, b1);
    AuthStagePasses(a, store, e, p.next.upToDate, p.buffer);
    var s := KnowAuth(a, store, e, true, p.next.upToDate, p.buffer);
    grant, auth := s.next.event.value, s.next.state;
  }

  // ---------------------------------------------------------------------------------------------
  // What ProcessEvent may queue.

  lemma AdmissionKeepsCurrent(a: Answers, e: Event, agentRequired: bool, b: Buffer)
    ensures Admission(a, e, agentRequired, b).buffer.current == b.current
    ensures var s := Admission(a, e, agentRequired, b); s.Stop? && s.outcome.Returned? ==> !s.outcome.authUpToDate
    ensures Admission(a, e, agentRequired, b).Go? && agentRequired ==> a.signer == Some(a.agent)
  {
  }

  ghost predicate OnlyPointers(current: map<Path, State>) {
    forall p | p in current :: p.model.AuthModel? && current[p].AuthPointer?
  }

  lemma KnowAuthQueuesPointers(a: Answers, store: Store, e: Event, agentRequired: bool, previousUpToDate: bool,
                               b: Buffer)
    requires NoAuthQueued(b) && OnlyPointers(b.current)
    ensures OnlyPointers(KnowAuth(a, store, e, agentRequired, previousUpToDate, b).buffer.current)
  {
  }

  lemma ConcludeKeepsCurrent(a: Answers, store: Store, e: Event, agentRequired: bool, data: LocalData,
                             previous: Previous, auths: Auths, b: Buffer)
    ensures Conclude(a, store, e, agentRequired, data, previous, auths, b).1.current == b.current
  {
  }

  /** ProcessEvent never queues an entity: only grants, through pointers. */
  lemma ProcessQueuesPointers(self: string, a: Answers, store: Store, e: Event, agentRequired: bool, data: LocalData,
                              b: Buffer)
    requires b.current == map[]
    ensures OnlyPointers(Process(self, a, store, e, agentRequired, data, b).1.current)
  {
    AdmissionKeepsCurrent(a, e, agentRequired, b);
    var b1 := Admission(a, e, agentRequired, b).buffer;
    PreviousQueuesNoAuth(a, store, e, b1);
    var p := KnowPrevious(a, store, e, b1);
    if p.Go? {
      KnowAuthQueuesPointers(a, store, e, agentRequired, p.next.upToDate, p.buffer);
      var s := KnowAuth(a, store, e, agentRequired, p.next.upToDate, p.buffer);
      if s.Go? {
        ConcludeKeepsCurrent(a, store, e, agentRequired, data, p.next, s.next, s.buffer);
      }
    }
  }

  lemma PointersCommitNoEntity(states: map<Path, Entity>, current: map<Path, State>)
    requires OnlyPointers(current)
    ensures NewStates(states, current) == map[]
  {
  }

  /** The local state and the outcome of ProcessEvent inside the handler. */
  ghost function HandlerOutcome(kind: Kind, self: string, a: HandlerAnswers, n: Node, e: Event): (Outcome, Buffer)
    requires LocalState(kind, a, n, e).Known? && EMPTY.WithEvent(e).Some?
  {
    Process(self, a.process, Store(n.events, a.broken), e, kind.TopicKind?,
            LocalDataFor(kind, a, n, LocalState(kind, a, n, e).state), EMPTY.WithEvent(e).value)
  }

  /** A handler changes entity states only by applying the event's own data after ProcessEvent accepted it as recent. */
  lemma OnlyAcceptedEventsChangeStates(kind: Kind, self: string, a: HandlerAnswers, n: Node, e: Event)
    requires Handle(kind, self, a, n, e).node.states != n.states
    ensures Handle(kind, self, a, n, e).Done? && LocalState(kind, a, n, e).Known? && EMPTY.WithEvent(e).Some?
    ensures var (o, b) := HandlerOutcome(kind, self, a, n, e);
      && o.Returned? && o.error == "" && o.previousUpToDate && (kind.TopicKind? ==> o.authUpToDate) && o.isRecent
      && Verdict(kind, self, a, e, o.auth) == Some("")
      && b.current == map[]
      && Handle(kind, self, a, n, e).node.states ==
           n.states + NewStates(n.states, map[Path(kind.Model(), EntityId(a, e)) := OwnState(kind, a, e)])
  {
    assert EMPTY.WithEvent(e).Some?;
    var b0 := EMPTY.WithEvent(e).value;
    CommittedStates(n, b0);
    var local := LocalState(kind, a, n, e);
    if local.Known? && !StateEventBroken(kind, a, local.state) {
      var (o, b) := HandlerOutcome(kind, self, a, n, e);
      ProcessQueuesPointers(self, a.process, Store(n.events, a.broken), e, kind.TopicKind?,
        LocalDataFor(kind, a, n, local.state), b0);
      SettleChangesStates(kind, self, a, n, e, o, b);
    }
  }

  lemma ApplyQueues(kind: Kind, a: HandlerAnswers, e: Event, isRecent: bool, error: string, b: Buffer)
    requires Path(kind.Model(), EntityId(a, e)) !in b.current
    ensures var s := Apply(kind, a, e, isRecent, error, b);
      s.buffer.current == if s.Go? && error == "" && isRecent
        then b.current[Path(kind.Model(), EntityId(a, e)) := OwnState(kind, a, e)] else b.current
  {
  }

  /** The state an applied event brings. */
  function OwnState(kind: Kind, a: HandlerAnswers, e: Event): State {
    EntityValue(if kind.SubnetKind? then EntityData(kind, e) else EntityData(kind, e).(id := EntityId(a, e)))
  }

  /** Pointers commit no entity, and a commit with pointers stores no state at all. */
  lemma CommittedStates(n: Node, b: Buffer)
    requires OnlyPointers(b.current)
    ensures Committed(n, b).states == n.states
    ensures Commit(n, b).Some? ==> b.current == map[]
  {
    PointersCommitNoEntity(n.states, b.current);
    assert n.states + map[] == n.states;
    if p :| p in b.current {
      assert Uncommittable(n.states, p, b.current[p]);
    }
  }

  lemma AppliedStates(n: Node, b: Buffer, before: map<Path, State>, path: Path, own: State)
    requires OnlyPointers(before) && !path.model.AuthModel? && own.EntityValue? && b.current == before[path := own]
    ensures Commit(n, b).None? ==> Committed(n, b).states == n.states
    ensures Commit(n, b).Some? ==>
      before == map[] && Committed(n, b).states == n.states + NewStates(n.states, map[path := own])
  {
    if p :| p in before {
      assert p in b.current && Uncommittable(n.states, p, b.current[p]);
    }
  }

  lemma SettleChangesStates(kind: Kind, self: string, a: HandlerAnswers, n: Node, e: Event, o: Outcome, b: Buffer)
    requires OnlyPointers(b.current) && Settle(kind, self, a, n, e, o, b).node.states != n.states
    ensures Settle(kind, self, a, n, e, o, b).Done?
    ensures o.Returned? && o.error == "" && o.previousUpToDate && (kind.TopicKind? ==> o.authUpToDate) && o.isRecent
    ensures Verdict(kind, self, a, e, o.auth) == Some("") && b.current == map[]
    ensures Settle(kind, self, a, n, e, o, b).node.states ==
           n.states + NewStates(n.states, map[Path(kind.Model(), EntityId(a, e)) := OwnState(kind, a, e)])
  {
    CommittedStates(n, b);
    var verdict := Verdict(kind, self, a, e, o.auth);
    assert o.Returned? && verdict.Some?;
    var path := Path(kind.Model(), EntityId(a, e));
    var s := Apply(kind, a, e, o.isRecent, verdict.value, b);
    ApplyQueues(kind, a, e, o.isRecent, verdict.value, b);
    if s.buffer.current == b.current {
      CommittedStates(n, s.buffer);
    } else {
      AppliedStates(n, s.buffer, b.current, path, OwnState(kind, a, e));
    }
  }

  /**
   * A remote topic event changes a topic only under a stored grant that is neither the node's current
   * authorization nor newer than it: the current one ends ProcessEvent without acceptance, a newer one is
   * queued through a pointer on which the commit panics, and a fetched one leaves a nil privilege.
   */
  lemma TopicChangesUnderSupersededGrant(self: string, a: HandlerAnswers, n: Node, e: Event)
    returns (grant: Event, auth: Authorization)
    requires e.validator != self
    requires Handle(TopicKind, self, a, n, e).node.states != n.states
    ensures a.process.signer == Some(a.process.agent)
    ensures Store(n.events, a.broken).Get(e.authEvent.id) == Found(grant) && grant.synced == Some(true)
    ensures a.process.authByEvent == Found(auth) && auth.priviledge.Some? && auth.priviledge.value >= MEMBER_PRIVILEDGE
    ensures var current := CurrentAuth(a.process, true);
      && current.id != "" && current.id != auth.id && Supersedes(auth, current) == Some(false)
      && current.timestamp.Some? && grant.timestamp < e.timestamp <= current.timestamp.value
  {
    OnlyAcceptedEventsChangeStates(TopicKind, self, a, n, e);
    var data := LocalDataFor(TopicKind, a, n, LocalState(TopicKind, a, n, e).state);
    grant, auth := AcceptedEventIsAuthorized(self, a.process, Store(n.events, a.broken), e, data,
      EMPTY.WithEvent(e).value);
  }

  /**
   * The data can be committed: a first state needs an id or a signature to derive one from, and the update of a
   * subnet a default privilege on both sides.
   */
  predicate Storable(kind: Kind, a: HandlerAnswers, n: Node, e: Event) {
    var path := Path(kind.Model(), EntityId(a, e));
    if path in n.states then
      kind.SubnetKind? ==> n.states[path].privilege.Some? && e.payload.data.privilege.Some?
    else path.id != ""
  }

  /** Other data change no state. */
  lemma AppliedIsStorable(kind: Kind, self: string, a: HandlerAnswers, n: Node, e: Event)
    requires Handle(kind, self, a, n, e).node.states != n.states
    ensures Storable(kind, a, n, e)
  {
    OnlyAcceptedEventsChangeStates(kind, self, a, n, e);
    var (o, b) := HandlerOutcome(kind, self, a, n, e);
    ApplyQueues(kind, a, e, o.isRecent, "", b);
    var s := Apply(kind, a, e, o.isRecent, "", b);
    var path := Path(kind.Model(), EntityId(a, e));
    if !Storable(kind, a, n, e) {
      assert s.Go? ==> path in s.buffer.current && Uncommittable(n.states, path, s.buffer.current[path]);
    }
  }

  // ---------------------------------------------------------------------------------------------
  // Events that are applied.

  /** What ProcessEvent leaves when it accepts the event, as recent or not, and queues no state. */
  ghost predicate Accepts(kind: Kind, self: string, a: HandlerAnswers, n: Node, e: Event, recent: bool)
    requires LocalState(kind, a, n, e).Known? && EMPTY.WithEvent(e).Some?
  {
    var (o, b) := HandlerOutcome(kind, self, a, n, e);
    && o.Returned? && o.error == "" && o.previousUpToDate && (kind.TopicKind? ==> o.authUpToDate)
    && o.isRecent == recent && Verdict(kind, self, a, e, o.auth) == Some("") && b.current == map[]
  }

  /** The queued events can be committed, the event itself among them. */
  ghost predicate IsSigned(b: Buffer, id: string) {
    !EventsFail(b.events) && id in b.events && b.events[id].id != ""
  }

  ghost predicate AcceptsAsRecent(kind: Kind, self: string, a: HandlerAnswers, n: Node, e: Event)
    requires LocalState(kind, a, n, e).Known? && EMPTY.WithEvent(e).Some?
  {
    Accepts(kind, self, a, n, e, true) && IsSigned(HandlerOutcome(kind, self, a, n, e).1, e.id)
  }

  /** The event's own data are the state at its path. */
  ghost predicate Applied(kind: Kind, self: string, a: HandlerAnswers, n: Node, e: Event) {
    var h, path := Handle(kind, self, a, n, e), Path(kind.Model(), EntityId(a, e));
    h.Done? && h.error == "" && h.node.states == n.states + NewStates(n.states, map[path := OwnState(kind, a, e)])
  }

  /** Either that, or the commit panics and nothing at all is stored, not even the event. */
  ghost predicate AppliedIfStorable(kind: Kind, self: string, a: HandlerAnswers, n: Node, e: Event) {
    if Storable(kind, a, n, e) then Applied(kind, self, a, n, e) else Handle(kind, self, a, n, e) == Crashed(n)
  }

  /** An event that is accepted as recent is applied if and only if its data can be committed. */
  lemma AcceptedIsApplied(kind: Kind, self: string, a: HandlerAnswers, n: Node, e: Event)
    requires LocalState(kind, a, n, e).Known? && EMPTY.WithEvent(e).Some?
    requires !StateEventBroken(kind, a, LocalState(kind, a, n, e).state) && AcceptsAsRecent(kind, self, a, n, e)
    ensures AppliedIfStorable(kind, self, a, n, e)
  {
    var (o, b) := HandlerOutcome(kind, self, a, n, e);
    var path := Path(kind.Model(), EntityId(a, e));
    ApplyQueues(kind, a, e, o.isRecent, "", b);
    var s := Apply(kind, a, e, o.isRecent, "", b);
    assert s.Go? && s.buffer.current == map[path := OwnState(kind, a, e)];
    AppliedStates(n, s.buffer, map[], path, OwnState(kind, a, e));
    assert forall k | k in s.buffer.events :: s.buffer.events[k].signed;
    assert Storable(kind, a, n, e) <==> !Uncommittable(n.states, path, s.buffer.current[path]);
  }

  /** Exactly such events change a state, if their data differ from what is stored. */
  lemma StatesChangeIff(kind: Kind, self: string, a: HandlerAnswers, n: Node, e: Event)
    ensures Handle(kind, self, a, n, e).node.states != n.states <==>
      && EMPTY.WithEvent(e).Some? && LocalState(kind, a, n, e).Known?
      && !StateEventBroken(kind, a, LocalState(kind, a, n, e).state) && AcceptsAsRecent(kind, self, a, n, e)
      && Storable(kind, a, n, e) && Differs(kind, a, n, e)
  {
    if Handle(kind, self, a, n, e).node.states != n.states {
      OnlyAcceptedEventsChangeStates(kind, self, a, n, e);
      AppliedIsStorable(kind, self, a, n, e);
      var (o, b) := HandlerOutcome(kind, self, a, n, e);
      CommitNeedsSigned(kind, a, n, e, b);
    } else if EMPTY.WithEvent(e).Some? && LocalState(kind, a, n, e).Known? &&
        !StateEventBroken(kind, a, LocalState(kind, a, n, e).state) && AcceptsAsRecent(kind, self, a, n, e) {
      AcceptedIsApplied(kind, self, a, n, e);
    }
  }

  ghost predicate Differs(kind: Kind, a: HandlerAnswers, n: Node, e: Event) {
    n.states + NewStates(n.states, map[Path(kind.Model(), EntityId(a, e)) := OwnState(kind, a, e)]) != n.states
  }

  lemma CommitNeedsSigned(kind: Kind, a: HandlerAnswers, n: Node, e: Event, b: Buffer)
    requires var s := Apply(kind, a, e, true, "", b); s.Go? && Commit(n, s.buffer).Some?
    ensures IsSigned(b, e.id)
  {
    var s := Apply(kind, a, e, true, "", b);
    forall k | k in b.events ensures b.events[k].signed {
      assert s.buffer.events[k].signed;
    }
  }
}
