/** The buffer's count after ProcessEvent: only a fetched previous event is not counted. */
module EventCounts {
  import opened Wrappers
  import opened Entities
  import opened DataStates
  import opened EventProcessing
  import EventRuns

  /** Events that peers send have an id. */
  predicate PeersNamed(a: Answers) {
    && (a.peerSubnet.Fetched? ==> a.peerSubnet.event.id != "")
    && (a.peerPrevious.Some? ==> a.peerPrevious.value.event.id != "")
    && (a.peerAuth.Some? && a.peerAuth.value.event.Some? ==> a.peerAuth.value.event.value.id != "")
  }

  predicate StoreNamed(store: Store) {
    forall id :: id in store.events ==> store.events[id].id != ""
  }

  /** The previous event is fetched, synced, and not among the queued events. */
  predicate Fetches(a: Answers, store: Store, e: Event, b: Buffer) {
    && e.previousEvent.id != "" && store.Get(e.previousEvent.id).Missing?
    && a.peerPrevious.Some? && a.peerPrevious.value.event.synced == Some(true)
    && a.peerPrevious.value.event.id !in b.events
  }

  /** How many entries ProcessEvent queues past the count. */
  function Uncounted(self: string, a: Answers, store: Store, e: Event, agentRequired: bool, b: Buffer): nat {
    if e.validator == self then 0
    else match Admission(a, e, agentRequired, b)
      case Stop(_, _) => 0
      case Go(_, b1) => if Unresolved(a, e, agentRequired) then 0 else if Fetches(a, store, e, b1) then 1 else 0
  }

  /** The local authorizations cannot be read, or revoke the named one. */
  predicate Unresolved(a: Answers, e: Event, agentRequired: bool) {
    agentRequired && (a.localAuths.None? ||
      (Unprivileged(CurrentAuth(a, agentRequired)) && CurrentAuth(a, agentRequired).id == e.authEvent.id))
  }

  lemma SubnetCounts(a: Answers, e: Event, b: Buffer, missed: int)
    requires Counts(b, missed) && PeersNamed(a)
    ensures Counts(KnowSubnet(a, e, b).buffer, missed)
  {
    if a.peerSubnet.Fetched? && b.WithEvent(a.peerSubnet.event).Some? {
      AddingEventCounts(b, a.peerSubnet.event, missed);
    }
  }

  lemma AdmissionCounts(a: Answers, e: Event, agentRequired: bool, b: Buffer, missed: int)
    requires Counts(b, missed) && e.id != "" && PeersNamed(a)
    ensures Counts(Admission(a, e, agentRequired, b).buffer, missed)
  {
    SubnetCounts(a, e, b, missed);
    var b1 := KnowSubnet(a, e, b).buffer;
    if b1.WithEvent(e).Some? {
      AddingEventCounts(b1, e, missed);
    }
  }

  lemma {:induction false} HistoricsCount(b: Buffer, path: Path, states: seq<string>, missed: int)
    requires Counts(b, missed)
    ensures Counts(AddHistorics(b, path, states), missed)
  {
    if states != [] {
      var init := AddHistorics(b, path, states[..|states| - 1]);
      HistoricsCount(b, path, states[..|states| - 1], missed);
      AddingCounts(init, AddsHistoric(path, Raw(states[|states| - 1])), missed);
    }
  }

  lemma PreviousCounts(a: Answers, store: Store, e: Event, b: Buffer, missed: int)
    requires Counts(b, missed) && PeersNamed(a)
    ensures Counts(KnowPrevious(a, store, e, b).buffer, missed + if Fetches(a, store, e, b) then 1 else 0)
  {
    if e.previousEvent.id != "" && store.Get(e.previousEvent.id).Missing? && a.peerPrevious.Some? {
      WrittenCounts(b, a.peerPrevious.value, e.previousEvent, missed);
    }
  }

  lemma WrittenCounts(b: Buffer, peer: PeerEvent, path: Path, missed: int)
    requires Counts(b, missed) && peer.event.id != ""
    ensures Counts(AddHistorics(b.Written(peer.event), path, peer.states),
                   missed + if peer.event.id in b.events then 0 else 1)
  {
    AddingCounts(b, Writes(peer.event), missed);
    HistoricsCount(b.Written(peer.event), path, peer.states, missed + Misses(b, Writes(peer.event)));
  }

  lemma CurrentCounts(b: Buffer, path: Path, auth: Authorization, grant: Event, missed: int)
    requires Counts(b, missed) && grant.id != "" && path !in b.current
    ensures var b1 := b.WithCurrentState(path, AuthPointer(auth));
      Counts(b1, missed) && (b1.WithEvent(grant).Some? ==> Counts(b1.WithEvent(grant).value, missed))
  {
    var b1 := b.WithCurrentState(path, AuthPointer(auth));
    AddingCounts(b, AddsCurrent(path, AuthPointer(auth)), missed);
    if b1.WithEvent(grant).Some? {
      AddingEventCounts(b1, grant, missed);
    }
  }

  lemma HistoryCounts(b: Buffer, path: Path, auth: Authorization, grant: Event, missed: int)
    requires Counts(b, missed) && grant.id != "" && b.WithEvent(grant).Some?
    ensures Counts(b.WithEvent(grant).value.WithHistoricState(path, AuthValue(auth)), missed)
  {
    AddingEventCounts(b, grant, missed);
    AddingCounts(b.WithEvent(grant).value, AddsHistoric(path, AuthValue(auth)), missed);
  }

  lemma CheckCounts(a: Answers, e: Event, current: Authorization, auths: Auths, previousUpToDate: bool, b: Buffer,
                    missed: int)
    requires Counts(b, missed) && auths.event.Some? && auths.event.value.id != ""
    requires Path(AuthModel, auths.state.id) !in b.current
    ensures Counts(CheckAuth(a, e, current, auths, previousUpToDate, b).buffer, missed)
  {
    var path, grant := Path(AuthModel, auths.state.id), auths.event.value;
    CurrentCounts(b, path, auths.state, grant, missed);
    if b.WithEvent(grant).Some? {
      HistoryCounts(b, path, auths.state, grant, missed);
    }
  }

  lemma AuthCounts(a: Answers, store: Store, e: Event, agentRequired: bool, previousUpToDate: bool, b: Buffer,
                   missed: int)
    requires Counts(b, missed) && NoAuthQueued(b) && PeersNamed(a) && StoreNamed(store)
    ensures Counts(KnowAuth(a, store, e, agentRequired, previousUpToDate, b).buffer, missed)
  {
    var found := FindAuth(a, store, e, previousUpToDate, !agentRequired, b);
    if found.Go? {
      CheckCounts(a, e, CurrentAuth(a, agentRequired), found.next, previousUpToDate, b, missed);
    }
  }

  lemma ConcludeCounts(a: Answers, store: Store, e: Event, agentRequired: bool, data: LocalData, previous: Previous,
                       auths: Auths, b: Buffer, missed: int)
    requires Counts(b, missed) && e.id != ""
    ensures Counts(Conclude(a, store, e, agentRequired, data, previous, auths, b).1, missed)
  {
    forall error | error == "bad request" || error == "unauthorized"
      ensures b.WithEvent(Mark(e.id, error, false)).Some? ==>
        Counts(b.WithEvent(Mark(e.id, error, false)).value, missed)
    {
      if b.WithEvent(Mark(e.id, error, false)).Some? {
        AddingEventCounts(b, Mark(e.id, error, false), missed);
      }
    }
  }

  /**
   * After ProcessEvent the count is the number of entries, less one if a previous event was fetched into the buffer.
   */
  lemma ProcessCounts(self: string, a: Answers, store: Store, e: Event, agentRequired: bool, data: LocalData, b: Buffer)
    requires Counts(b, 0) && NoAuthQueued(b) && e.id != "" && PeersNamed(a) && StoreNamed(store)
    ensures Counts(Process(self, a, store, e, agentRequired, data, b).1, Uncounted(self, a, store, e, agentRequired, b))
  {
    AdmissionCounts(a, e, agentRequired, b, 0);
    EventRuns.AdmissionKeepsCurrent(a, e, agentRequired, b);
    var s := Admission(a, e, agentRequired, b);
    if e.validator != self && s.Go? && !Unresolved(a, e, agentRequired) {
      ResolveCounts(a, store, e, agentRequired, data, s.buffer);
    }
  }

  lemma ResolveCounts(a: Answers, store: Store, e: Event, agentRequired: bool, data: LocalData, b: Buffer)
    requires Counts(b, 0) && NoAuthQueued(b) && e.id != "" && PeersNamed(a) && StoreNamed(store)
    requires !Unresolved(a, e, agentRequired)
    ensures Counts(Resolve(a, store, e, agentRequired, data, b).1, if Fetches(a, store, e, b) then 1 else 0)
  {
    var missed := if Fetches(a, store, e, b) then 1 else 0;
    PreviousCounts(a, store, e, b, 0);
    PreviousQueuesNoAuth(a, store, e, b);
    var p := KnowPrevious(a, store, e, b);
    if p.Go? {
      AuthCounts(a, store, e, agentRequired, p.next.upToDate, p.buffer, missed);
      var s := KnowAuth(a, store, e, agentRequired, p.next.upToDate, p.buffer);
      if s.Go? {
        ConcludeCounts(a, store, e, agentRequired, data, p.next, s.next, s.buffer, missed);
      }
    }
  }
}
