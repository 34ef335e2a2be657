/** Exactly when the handlers of remote events apply them, keep them as history, or leave the states alone. */
module EventConditions {
  import opened Wrappers
  import opened Ordering
  import opened Entities
  import opened DataStates
  import opened EventProcessing
  import opened EventHandling
  import opened EventRuns

  // ---------------------------------------------------------------------------------------------
  // The conditions, on what is sent, stored and answered.

  /** The event passes the checks on itself, on its subnet and on its agent. */
  predicate IsAdmitted(kind: Kind, a: Answers, e: Event) {
    && e.id != "" && e.signed && a.valid && a.encodes
    && (if kind.TopicKind? then InWindow(e) && a.signer == Some(a.agent)
        else a.agent == "" || a.signer == Some(a.agent))
    && SubnetComes(a, e)
  }

  /** The event is about a subnet itself, or its subnet is known, or the event of that is fetched. */
  predicate SubnetComes(a: Answers, e: Event) {
    e.eventType == 501 || e.eventType == 509 || a.subnet.Found? ||
    (a.subnet.Missing? && a.peerSubnet.Fetched? && (a.peerSubnet.event.signed || a.peerSubnet.event.id == e.id))
  }

  /** At most 15 seconds between the payload's time, if it has one, and the event's, in 64-bit arithmetic. */
  predicate InWindow(e: Event) {
    e.payload.timestamp == 0 ||
    (e.timestamp - 15000) % 0x1_0000_0000_0000_0000 <= e.payload.timestamp <=
      (e.timestamp + 15000) % 0x1_0000_0000_0000_0000
  }

  /** Where the event's data belong. */
  function OwnPath(kind: Kind, a: HandlerAnswers, e: Event): Path {
    Path(if kind.SubnetKind? then SubnetModel else TopicModel,
         if e.payload.data.id == "" then a.derivedId else e.payload.data.id)
  }

  /** A subnet's state is always looked up, a topic's only by the id in the data; a state without an id is none. */
  function LocalOf(kind: Kind, a: HandlerAnswers, n: Node, e: Event): Option<Entity> {
    var path := OwnPath(kind, a, e);
    if kind.TopicKind? && e.payload.data.id == "" then None
    else if path in n.states && n.states[path].id != "" then Some(n.states[path])
    else None
  }

  /** A topic's state must be there to be looked up, and its event readable. */
  predicate LocalReads(kind: Kind, a: HandlerAnswers, n: Node, e: Event) {
    if kind.SubnetKind? then !a.stateBroken
    else
      e.payload.data.id != "" ==>
        !a.stateBroken && OwnPath(kind, a, e) in n.states &&
        var local := LocalOf(kind, a, n, e);
        (local.Some? ==> local.value.eventId == "" || local.value.eventId !in a.broken)
  }

  /** There is an event under the id, and it can be read. */
  predicate IsStored(n: Node, broken: set<string>, id: string) {
    id != "" && id in n.events && id !in broken
  }

  predicate Precedes(s: Event, hash: string, timestamp: uint64) {
    IsMoreRecentEvent(s.hash, ToInt(s.timestamp), hash, ToInt(timestamp))
  }

  /** The event's previous event is stored, another than s, and not more recent than s, going by its id for a hash. */
  predicate IsStale(n: Node, broken: set<string>, s: Event, e: Event) {
    var p := e.previousEvent.id;
    IsStored(n, broken, p) && s.hash != p && !Precedes(s, n.events[p].id, n.events[p].timestamp)
  }

  /** The event is more recent than the state's event and not stale to it; or it is not more recent. */
  predicate Judges(n: Node, broken: set<string>, s: Event, e: Event, recent: bool) {
    Precedes(s, e.hash, e.timestamp) == recent && (recent ==> !IsStale(n, broken, s, e))
  }

  /** Unless there is no local state, or the event follows it directly, the state's event decides. */
  predicate Compares(kind: Kind, a: HandlerAnswers, n: Node, e: Event, recent: bool) {
    var local := LocalOf(kind, a, n, e);
    if local.None? || local.value.eventId == e.previousEvent.id then recent
    else
      IsStored(n, a.broken, local.value.eventId) &&
      var s := n.events[local.value.eventId];
      if s.id == "" then recent else Judges(n, a.broken, s, e, recent)
  }

  /** The previous event is stored, or it is fetched and synced. */
  predicate PreviousComes(a: Answers, store: Store, e: Event) {
    e.previousEvent.id == "" ||
    (e.previousEvent.id !in store.broken &&
     (e.previousEvent.id in store.events ||
      (a.peerPrevious.Some? && a.peerPrevious.value.event.synced == Some(true))))
  }

  function FetchedPrevious(a: Answers, store: Store, e: Event): map<string, Event> {
    if e.previousEvent.id != "" && e.previousEvent.id !in store.broken && e.previousEvent.id !in store.events &&
      a.peerPrevious.Some? then map[a.peerPrevious.value.event.id := a.peerPrevious.value.event]
    else map[]
  }

  /** The states fetched with a previous event that is not stored. */
  predicate FetchesAt(a: Answers, store: Store, e: Event, q: Path) {
    && q == e.previousEvent && q.id != "" && q.id !in store.broken && q.id !in store.events
    && a.peerPrevious.Some? && a.peerPrevious.value.event.synced == Some(true) && a.peerPrevious.value.states != []
  }

  /** The last of them, which stays. */
  function LastState(a: Answers): string {
    if a.peerPrevious.None? || a.peerPrevious.value.states == [] then ""
    else a.peerPrevious.value.states[|a.peerPrevious.value.states| - 1]
  }

  function FetchedSubnet(a: Answers, e: Event): set<string> {
    if e.eventType != 501 && e.eventType != 509 && a.subnet.Missing? && a.peerSubnet.Fetched? then
      {a.peerSubnet.event.id}
    else {}
  }

  /** The fetched previous event is signed, or becomes so with the grant. */
  predicate PreviousSigned(a: Answers, store: Store, e: Event, grant: Option<Event>) {
    forall k | k in FetchedPrevious(a, store, e) ::
      FetchedPrevious(a, store, e)[k].signed || (grant.Some? && k == grant.value.id && grant.value.signed)
  }

  /** The last authorization listed for the event's account, agent and subnet. */
  function LastListed(a: Answers): Authorization {
    if a.localAuths.None? || a.localAuths.value == [] then NO_AUTHORIZATION
    else a.localAuths.value[|a.localAuths.value| - 1]
  }

  predicate IsBelowMember(auth: Authorization) {
    auth.priviledge.Some? && auth.priviledge.value < 20
  }

  /** A stored grant for the event that the local authorization supersedes, though not before the event. */
  predicate IsSuperseded(a: Answers, store: Store, e: Event, grant: Event, auth: Authorization) {
    var current := LastListed(a);
    && grant.synced == Some(true) && grant.timestamp < e.timestamp && a.authHashes && a.authSigned
    && auth.priviledge.Some? && auth.priviledge.value >= 20 && current.id != auth.id && current.id != ""
    && auth.timestamp.Some? && current.timestamp.Some?
    && !IsMoreRecentEvent(current.eventId, ToInt(current.timestamp.value), auth.eventId, ToInt(auth.timestamp.value))
    && e.payload.timestamp <= current.timestamp.value && e.timestamp <= current.timestamp.value
    && (grant.signed || (grant.id != "" && grant.id in QueuedIds(a, store, e)))
  }

  /** The events that are queued before the grant. */
  function QueuedIds(a: Answers, store: Store, e: Event): set<string> {
    {e.id} + FetchedSubnet(a, e) + FetchedPrevious(a, store, e).Keys
  }

  predicate GrantComes(a: Answers, store: Store, e: Event) {
    && a.localAuths.Some? && !(IsBelowMember(LastListed(a)) && LastListed(a).id == e.authEvent.id)
    && e.authEvent.id != "" && e.authEvent.id in store.events && e.authEvent.id !in store.broken && a.authByEvent.Found?
    && IsSuperseded(a, store, e, store.events[e.authEvent.id], a.authByEvent.value)
  }

  /** The event of the local authorization is readable, and unless it is missing, dated before the authorization. */
  predicate LocalGrantAdmits(a: Answers, store: Store, e: Event) {
    var current := LastListed(a);
    current.eventId == e.authEvent.id ||
    (current.eventId !in store.broken &&
     (current.eventId in store.events ==>
        var local := store.events[current.eventId];
        local.id == "" ||
        (current.timestamp.Some? &&
         IsMoreRecentEvent(current.id, ToInt(current.timestamp.value), local.id, ToInt(local.timestamp)))))
  }

  /** The event names a grant whose state is found and has no id: an absent local authorization has the same id. */
  predicate NamesBlankGrant(a: Answers, store: Store, e: Event) {
    e.authEvent.id != "" && e.authEvent.id !in store.broken &&
    if e.authEvent.id in store.events then
      store.events[e.authEvent.id].synced == Some(true) && a.authByEvent.Found? && a.authByEvent.value.id == ""
    else
      a.peerAuth.Some? && a.peerAuth.value.event.Some? && a.peerAuth.value.states != [] &&
      LastIsBlank(a.peerAuth.value.states)
  }

  /** The last state that can be read has no id, or none can be read. */
  predicate LastIsBlank(states: seq<Option<Authorization>>) {
    forall i | 0 <= i < |states| && states[i].Some? && (forall j :: i < j < |states| ==> states[j].None?) ::
      states[i].value.id == ""
  }

  /** A topic event under a superseded grant, as recent only if the local grant admits it. */
  predicate TopicJudged(a: HandlerAnswers, n: Node, e: Event, recent: bool) {
    var store := Store(n.events, a.broken);
    && IsAdmitted(TopicKind, a.process, e) && LocalReads(TopicKind, a, n, e)
    && PreviousComes(a.process, store, e) && GrantComes(a.process, store, e)
    && Compares(TopicKind, a, n, e, recent) && (recent ==> LocalGrantAdmits(a.process, store, e))
  }

  /** A subnet event without a grant, or under a blank one, which is always taken as recent. */
  predicate SubnetJudged(a: HandlerAnswers, n: Node, e: Event, recent: bool) {
    var store := Store(n.events, a.broken);
    && IsAdmitted(SubnetKind, a.process, e) && LocalReads(SubnetKind, a, n, e)
    && PreviousComes(a.process, store, e)
    && if e.authEvent.id == "" then Compares(SubnetKind, a, n, e, recent)
       else recent && NamesBlankGrant(a.process, store, e)
  }

  predicate Judged(kind: Kind, a: HandlerAnswers, n: Node, e: Event, recent: bool) {
    if kind.SubnetKind? then SubnetJudged(a, n, e, recent) else TopicJudged(a, n, e, recent)
  }

  /** The stored grant that a topic event names. */
  function GrantOf(kind: Kind, a: HandlerAnswers, n: Node, e: Event): Option<Event> {
    if kind.TopicKind? && e.authEvent.id in n.events then Some(n.events[e.authEvent.id]) else None
  }

  /** And what is queued along with it is signed. */
  predicate Passes(kind: Kind, a: HandlerAnswers, n: Node, e: Event, recent: bool) {
    Judged(kind, a, n, e, recent) &&
    PreviousSigned(a.process, Store(n.events, a.broken), e, GrantOf(kind, a, n, e))
  }

  // ---------------------------------------------------------------------------------------------
  // The stages of ProcessEvent against them.

  lemma LocalIff(kind: Kind, a: HandlerAnswers, n: Node, e: Event)
    ensures var local := LocalState(kind, a, n, e);
      && (LocalReads(kind, a, n, e) <==> local.Known? && !StateEventBroken(kind, a, local.state))
      && (local.Known? ==> local.state == LocalOf(kind, a, n, e))
  {
  }

  /** Against the state's event, when the event does not follow it directly. */
  lemma ComparedIff(n: Node, broken: set<string>, s: Event, e: Event, recent: bool)
    requires s.id != ""
    ensures Compare(StateEvent(s.id, s.hash, s.timestamp), StoredPrevious(Store(n.events, broken), e), e) ==
        Recency(recent, false)
      <==> Judges(n, broken, s, e, recent)
  {
  }

  lemma RecencyIff(kind: Kind, a: HandlerAnswers, n: Node, e: Event, recent: bool)
    ensures var data := LocalDataFor(kind, a, n, LocalOf(kind, a, n, e));
      KnowRecency(data, StoredPrevious(Store(n.events, a.broken), e), e) == Some(Recency(recent, false)) <==>
        Compares(kind, a, n, e, recent)
  {
    var local := LocalOf(kind, a, n, e);
    if local.Some? && local.value.eventId != e.previousEvent.id {
      var data := LocalDataFor(kind, a, n, local);
      if IsStored(n, a.broken, local.value.eventId) {
        var s := n.events[local.value.eventId];
        assert data == LocalData(local, Some(StateEvent(s.id, s.hash, s.timestamp)));
        if s.id != "" {
          ComparedIff(n, a.broken, s, e, recent);
        }
      } else {
        assert data == LocalData(local, None);
      }
    }
  }

  function StoredPrevious(store: Store, e: Event): Option<Event> {
    if e.previousEvent.id != "" && store.Get(e.previousEvent.id).Found? then
      Some(store.Get(e.previousEvent.id).value)
    else None
  }

  /** Signed events under their own ids. */
  ghost predicate KeptById(events: map<string, Event>) {
    forall k | k in events :: events[k].id == k && events[k].signed
  }

  /** The buffer after admission: the event itself, as it came, and that of its subnet if it is fetched. */
  ghost predicate AdmittedBuffer(a: Answers, e: Event, b: Buffer) {
    && KeptById(b.events) && b.events.Keys == {e.id} + FetchedSubnet(a, e) && b.current == map[] && b.historic == map[]
    && (e.id !in FetchedSubnet(a, e) ==> b.events[e.id] == Marked(e))
  }

  /** Queueing any event among signed ones. */
  lemma Queued(f: Event, b: Buffer)
    requires KeptById(b.events)
    ensures b.WithEvent(f).Some? <==> f.signed || (f.id in b.events && f.id != "")
    ensures b.WithEvent(f).Some? ==>
      var b1 := b.WithEvent(f).value;
      && b1.events.Keys == b.events.Keys + {f.id} && KeptById(b1.events)
      && b1.current == b.current && b1.historic == b.historic
      && (forall k | k in b.events && k != f.id :: b1.events[k] == b.events[k])
  {
  }

  lemma KnownSubnet(a: Answers, e: Event, b: Buffer)
    requires e.id != "" && b.events == map[e.id := Marked(e)] && e.signed
    ensures var s := KnowSubnet(a, e, b);
      && (s.Go? <==> SubnetComes(a, e)) && s.buffer.current == b.current && s.buffer.historic == b.historic
      && (s.Go? ==>
            && KeptById(s.buffer.events) && s.buffer.events.Keys == {e.id} + FetchedSubnet(a, e)
            && (e.id !in FetchedSubnet(a, e) ==> s.buffer.events[e.id] == Marked(e)))
  {
    if a.peerSubnet.Fetched? {
      Queued(a.peerSubnet.event, b);
    }
  }

  lemma WindowIff(e: Event)
    ensures InWindow(e) <==> !OutsideWindow(e)
  {
  }

  lemma AdmissionIff(kind: Kind, a: Answers, e: Event)
    requires e.id != "" && e.signed
    ensures EMPTY.WithEvent(e).Some?
    ensures var s := Admission(a, e, kind.TopicKind?, EMPTY.WithEvent(e).value);
      && (s.Go? <==> IsAdmitted(kind, a, e)) && s.buffer.current == map[] && s.buffer.historic == map[]
      && (s.Go? ==> AdmittedBuffer(a, e, s.buffer))
  {
    var b := EMPTY.WithEvent(e).value;
    KnownSubnet(a, e, b);
    var s := KnowSubnet(a, e, b);
    WindowIff(e);
    if s.Go? {
      Queued(e, s.buffer);
      AddEventIsIdempotent(EMPTY, e);
    }
  }

  /** The buffer after the previous event is known. */
  ghost predicate PreviousBuffer(a: Answers, store: Store, e: Event, b: Buffer, b1: Buffer) {
    && b1.current == b.current && b1.events == b.events + FetchedPrevious(a, store, e) && HasFetched(a, store, e, b1)
    && forall q | q != e.previousEvent :: (q in b1.historic <==> q in b.historic) &&
         (q in b.historic ==> b1.historic[q] == b.historic[q])
  }

  /** The fetched states are queued. */
  ghost predicate HasFetched(a: Answers, store: Store, e: Event, b: Buffer) {
    FetchesAt(a, store, e, e.previousEvent) ==>
      e.previousEvent in b.historic && b.historic[e.previousEvent] == Raw(LastState(a))
  }

  lemma PreviousIff(a: Answers, store: Store, e: Event, b: Buffer)
    ensures var s := KnowPrevious(a, store, e, b);
      && (PreviousComes(a, store, e) <==> s.Go? && s.next.upToDate)
      && (PreviousComes(a, store, e) ==>
            s.next.event == StoredPrevious(store, e) && PreviousBuffer(a, store, e, b, s.buffer))
  {
    if e.previousEvent.id != "" && store.Get(e.previousEvent.id).Missing? && a.peerPrevious.Some? {
      var peer := a.peerPrevious.value;
      HistoricsKeepTheRest(b.Written(peer.event), e.previousEvent, peer.states);
      HistoricsElsewhere(b.Written(peer.event), e.previousEvent, peer.states);
    }
  }

  /** Fetched states are queued at the path of the previous event alone, the last of them for good. */
  lemma {:induction false} HistoricsElsewhere(b: Buffer, path: Path, states: seq<string>)
    ensures var b1 := AddHistorics(b, path, states);
      && (forall q | q != path ::
            (q in b1.historic <==> q in b.historic) && (q in b.historic ==> b1.historic[q] == b.historic[q]))
      && (states != [] ==> path in b1.historic && b1.historic[path] == Raw(states[|states| - 1]))
      && (states == [] ==> b1 == b)
  {
    if states != [] {
      HistoricsElsewhere(b, path, states[..|states| - 1]);
    }
  }

  /** Nothing but such a grant passes without a pointer and gives the handler an authorization with a privilege. */
  lemma GrantIff(a: Answers, store: Store, e: Event, b: Buffer)
    requires NoAuthQueued(b) && b.current == map[] && (forall k | k in b.events :: b.events[k].id == k)
    requires b.events.Keys == QueuedIds(a, store, e)
    requires a.localAuths.Some? && !(IsBelowMember(LastListed(a)) && LastListed(a).id == e.authEvent.id)
    ensures var s := KnowAuth(a, store, e, true, true, b);
      s.Go? && s.next.upToDate && s.buffer.current == map[] && s.next.returned.priviledge.Some? <==>
        GrantComes(a, store, e)
    ensures GrantComes(a, store, e) ==>
      var grant, auth, s := store.events[e.authEvent.id], a.authByEvent.value, KnowAuth(a, store, e, true, true, b);
      b.WithEvent(grant).Some? && s.next == Auths(Some(grant), auth, auth, true) &&
      s.buffer == b.WithEvent(grant).value.WithHistoricState(Path(AuthModel, auth.id), AuthValue(auth))
  {
    assert CurrentAuth(a, true) == LastListed(a);
    var found := FindAuth(a, store, e, true, false, b);
    if found.Go? {
      FindAuthFinds(a, store, e, true, b);
    }
  }

  /** The conclusion on a topic event. */
  lemma ConcludeIff(a: Answers, store: Store, e: Event, data: LocalData, previous: Previous, auths: Auths, b: Buffer,
                    recent: bool)
    requires previous.upToDate && auths.upToDate && auths.event.Some? && LastListed(a).id != "" && a.localAuths.Some?
    ensures var (o, b1) := Conclude(a, store, e, true, data, previous, auths, b);
      && (o.Returned? && o.error == "" && o.previousUpToDate && o.authUpToDate && o.isRecent == recent <==>
            KnowRecency(data, previous.event, e) == Some(Recency(recent, false)) &&
            (recent ==> LocalGrantAdmits(a, store, e)))
      && (o.Returned? && o.error == "" && o.previousUpToDate && o.authUpToDate ==>
            o.auth == Some(auths.returned) && b1 == b)
  {
    assert CurrentAuth(a, true) == LastListed(a);
  }

  /** The queued events are signed if those fetched are, or become so with the grant. */
  lemma SignedIff(b: Buffer, fetched: map<string, Event>, grant: Event, after: Buffer)
    requires KeptById(b.events) && (forall k | k in fetched :: fetched[k].id == k)
    requires after.events == b.events + fetched && after.WithEvent(grant).Some?
    ensures !EventsFail(after.WithEvent(grant).value.events) <==>
      forall k | k in fetched :: fetched[k].signed || (k == grant.id && grant.signed)
  {
    var last := after.WithEvent(grant).value.events;
    if !EventsFail(last) {
      forall k | k in fetched ensures fetched[k].signed || (k == grant.id && grant.signed) {
        assert k in last && last[k].signed;
      }
    }
  }

  lemma KeptUnderIds(b: Buffer, fetched: map<string, Event>, grant: Event, after: Buffer)
    requires KeptById(b.events) && (forall k | k in fetched :: fetched[k].id == k)
    requires after.events == b.events + fetched && after.WithEvent(grant).Some?
    ensures after.events.Keys <= after.WithEvent(grant).value.events.Keys
    ensures forall k | k in after.WithEvent(grant).value.events :: after.WithEvent(grant).value.events[k].id == k
  {
  }

  lemma GrantElsewhere(b: Buffer, fetched: map<string, Event>, grant: Event, after: Buffer, k: string)
    requires after.events == b.events + fetched && after.WithEvent(grant).Some?
    requires k in b.events && k !in fetched && k != grant.id
    ensures k in after.WithEvent(grant).value.events && after.WithEvent(grant).value.events[k] == b.events[k]
  {
  }

  lemma SignedWithoutGrant(b: Buffer, fetched: map<string, Event>, after: Buffer)
    requires KeptById(b.events) && (forall k | k in fetched :: fetched[k].id == k)
    requires after.events == b.events + fetched
    ensures !EventsFail(after.events) <==> forall k | k in fetched :: fetched[k].signed
    ensures forall k | k in after.events :: after.events[k].id == k
  {
    if !EventsFail(after.events) {
      forall k | k in fetched ensures fetched[k].signed {
        assert k in after.events && after.events[k].signed;
      }
    }
  }

  /** The fetched events and the grant have other ids than the event. */
  predicate IsAlone(a: Answers, store: Store, e: Event, grant: Option<Event>) {
    e.id !in FetchedSubnet(a, e) && e.id !in FetchedPrevious(a, store, e) && (grant.Some? ==> grant.value.id != e.id)
  }

  /** The buffer that ProcessEvent leaves for an accepted event. */
  ghost predicate AcceptedBuffer(a: Answers, store: Store, e: Event, grant: Option<Event>, b: Buffer) {
    && (IsSigned(b, e.id) <==> PreviousSigned(a, store, e, grant))
    && (IsAlone(a, store, e, grant) ==> e.id in b.events && b.events[e.id] == Marked(e))
    && (forall q | q in b.historic :: q == e.previousEvent || q.model.AuthModel?)
    && (!e.previousEvent.model.AuthModel? ==> HasFetched(a, store, e, b))
  }

  ghost predicate IsAccepted(o: Outcome, b: Buffer, agentRequired: bool, recent: bool) {
    && o.Returned? && o.error == "" && o.previousUpToDate && o.isRecent == recent && b.current == map[]
    && (agentRequired ==> o.authUpToDate && o.auth.Some? && o.auth.value.priviledge.Some?)
  }

  predicate TopicResolves(a: Answers, store: Store, e: Event, data: LocalData, recent: bool) {
    && PreviousComes(a, store, e) && GrantComes(a, store, e) && (recent ==> LocalGrantAdmits(a, store, e))
    && KnowRecency(data, StoredPrevious(store, e), e) == Some(Recency(recent, false))
  }

  predicate SubnetResolves(a: Answers, store: Store, e: Event, data: LocalData, recent: bool) {
    PreviousComes(a, store, e) &&
    if e.authEvent.id == "" then KnowRecency(data, StoredPrevious(store, e), e) == Some(Recency(recent, false))
    else recent && NamesBlankGrant(a, store, e)
  }

  /** The buffer once the grant is queued and kept as history. */
  lemma GrantedBuffer(a: Answers, store: Store, e: Event, b: Buffer, after: Buffer)
    requires AdmittedBuffer(a, e, b) && PreviousBuffer(a, store, e, b, after) && e.id != ""
    requires e.authEvent.id in store.events && a.authByEvent.Found?
    requires after.WithEvent(store.events[e.authEvent.id]).Some?
    ensures var grant := store.events[e.authEvent.id];
      AcceptedBuffer(a, store, e, Some(grant),
        after.WithEvent(grant).value.WithHistoricState(
          Path(AuthModel, a.authByEvent.value.id), AuthValue(a.authByEvent.value)))
  {
    var grant := store.events[e.authEvent.id];
    SignedIff(b, FetchedPrevious(a, store, e), grant, after);
    KeptUnderIds(b, FetchedPrevious(a, store, e), grant, after);
    if IsAlone(a, store, e, Some(grant)) {
      GrantElsewhere(b, FetchedPrevious(a, store, e), grant, after, e.id);
    }
  }

  /** With the previous event and the grant known, the rest depends on the local grant and the local state. */
  lemma GrantedIff(a: Answers, store: Store, e: Event, data: LocalData, b: Buffer, recent: bool)
    requires AdmittedBuffer(a, e, b) && e.id != "" && PreviousComes(a, store, e) && GrantComes(a, store, e)
    ensures NoAuthQueued(b)
    ensures var (o, b1) := Resolve(a, store, e, true, data, b);
      && (IsAccepted(o, b1, true, recent) <==> TopicResolves(a, store, e, data, recent))
      && (IsAccepted(o, b1, true, recent) ==>
            AcceptedBuffer(a, store, e, Some(store.events[e.authEvent.id]), b1))
  {
    var grant := store.events[e.authEvent.id];
    PreviousIff(a, store, e, b);
    PreviousQueuesNoAuth(a, store, e, b);
    var p := KnowPrevious(a, store, e, b);
    GrantIff(a, store, e, p.buffer);
    var s := KnowAuth(a, store, e, true, true, p.buffer);
    GrantedBuffer(a, store, e, b, p.buffer);
    assert CurrentAuth(a, true) == LastListed(a);
    assert Resolve(a, store, e, true, data, b) == Conclude(a, store, e, true, data, p.next, s.next, s.buffer);
    ConcludeIff(a, store, e, data, p.next, s.next, s.buffer, recent);
  }

  lemma TopicResolvedIff(a: Answers, store: Store, e: Event, data: LocalData, b: Buffer, recent: bool)
    requires AdmittedBuffer(a, e, b) && e.id != ""
    ensures NoAuthQueued(b)
    ensures var (o, b1) := Resolve(a, store, e, true, data, b);
      && (IsAccepted(o, b1, true, recent) <==> TopicResolves(a, store, e, data, recent))
      && (IsAccepted(o, b1, true, recent) ==>
            AcceptedBuffer(a, store, e, Some(store.events[e.authEvent.id]), b1))
  {
    var (o, b1) := Resolve(a, store, e, true, data, b);
    if IsAccepted(o, b1, true, recent) {
      AcceptedPassedStages(a, store, e, data, b);
      PreviousIff(a, store, e, b);
      assert CurrentAuth(a, true) == LastListed(a);
      GrantIff(a, store, e, KnowPrevious(a, store, e, b).buffer);
      GrantedIff(a, store, e, data, b, recent);
    } else if TopicResolves(a, store, e, data, recent) {
      GrantedIff(a, store, e, data, b, recent);
    }
  }

  lemma {:induction false} BlankIff(states: seq<Option<Authorization>>)
    ensures LastReadable(states).id == "" <==> LastIsBlank(states)
  {
    if states != [] {
      var k := |states| - 1;
      if states[k].None? {
        BlankIff(states[..k]);
        if LastIsBlank(states) {
          forall i | 0 <= i < k && states[..k][i].Some? && (forall j :: i < j < k ==> states[..k][j].None?)
            ensures states[..k][i].value.id == ""
          {
            assert forall j :: i < j < k ==> states[j] == states[..k][j];
          }
        } else {
          var i :| 0 <= i < |states| && states[i].Some? && (forall j :: i < j < |states| ==> states[j].None?) &&
            states[i].value.id != "";
          assert states[..k][i] == states[i] && forall j :: i < j < k ==> states[..k][j] == states[j];
        }
      }
    }
  }

  /** What the search for a grant finds has no id exactly when the event names a blank grant. */
  lemma FoundBlankIff(a: Answers, store: Store, e: Event, previousUpToDate: bool, b: Buffer)
    requires e.authEvent.id != ""
    ensures var s := FindAuth(a, store, e, previousUpToDate, true, b);
      && (NamesBlankGrant(a, store, e) <==> s.Go? && s.next.state.id == "")
      && (s.Stop? ==> s.outcome.Panicked? || s.outcome.error != "")
      && s.buffer == b
  {
    if a.peerAuth.Some? {
      BlankIff(a.peerAuth.value.states);
    }
  }

  lemma CheckedBlankIff(a: Answers, e: Event, auths: Auths, previousUpToDate: bool, b: Buffer)
    requires auths.event.Some? && NoAuthQueued(b)
    ensures var s := CheckAuth(a, e, NO_AUTHORIZATION, auths, previousUpToDate, b);
      if auths.state.id == "" then s == Stop(Returned(previousUpToDate, false, None, true, ""), b)
      else if s.Go? then Path(AuthModel, auths.state.id) in s.buffer.current
      else s.outcome.Panicked? || s.outcome.error != ""
  {
  }

  /** Without an agent a grant that has an id is queued through a pointer, or the event fails; a blank one ends it. */
  lemma NamedGrantQueuesPointer(a: Answers, store: Store, e: Event, previousUpToDate: bool, b: Buffer)
    requires NoAuthQueued(b) && e.authEvent.id != ""
    ensures var s := KnowAuth(a, store, e, false, previousUpToDate, b);
      if NamesBlankGrant(a, store, e) then s == Stop(Returned(previousUpToDate, false, None, true, ""), b)
      else if s.Go? then s.buffer.current != map[]
      else s.outcome.Panicked? || s.outcome.error != ""
  {
    FoundBlankIff(a, store, e, previousUpToDate, b);
    var found := FindAuth(a, store, e, previousUpToDate, true, b);
    if found.Go? {
      CheckedBlankIff(a, e, found.next, previousUpToDate, b);
    }
  }

  lemma SubnetResolvedIff(a: Answers, store: Store, e: Event, data: LocalData, b: Buffer, recent: bool)
    requires AdmittedBuffer(a, e, b) && e.id != ""
    ensures NoAuthQueued(b)
    ensures var (o, b1) := Resolve(a, store, e, false, data, b);
      && (IsAccepted(o, b1, false, recent) <==> SubnetResolves(a, store, e, data, recent))
      && (IsAccepted(o, b1, false, recent) ==> AcceptedBuffer(a, store, e, None, b1))
  {
    PreviousIff(a, store, e, b);
    PreviousQueuesNoAuth(a, store, e, b);
    var p := KnowPrevious(a, store, e, b);
    if PreviousComes(a, store, e) {
      SignedWithoutGrant(b, FetchedPrevious(a, store, e), p.buffer);
      var s := KnowAuth(a, store, e, false, true, p.buffer);
      if e.authEvent.id == "" {
        assert s == Go(Auths(None, NO_AUTHORIZATION, NO_AUTHORIZATION, true), p.buffer);
      } else {
        NamedGrantQueuesPointer(a, store, e, true, p.buffer);
        if s.Go? {
          ConcludeKeepsCurrent(a, store, e, false, data, p.next, s.next, s.buffer);
        }
      }
    }
  }

  // ---------------------------------------------------------------------------------------------
  // The handlers against them.

  /** The handler's own check of the privilege adds nothing to those of ProcessEvent. */
  lemma VerdictOnAccepted(kind: Kind, self: string, a: HandlerAnswers, n: Node, e: Event, recent: bool)
    requires e.validator != self && EMPTY.WithEvent(e).Some? && LocalState(kind, a, n, e).Known?
    ensures var (o, b) := HandlerOutcome(kind, self, a, n, e);
      if IsAccepted(o, b, kind.TopicKind?, recent) then Verdict(kind, self, a, e, o.auth) == Some(a.dataError)
      else !Accepts(kind, self, a, n, e, recent)
  {
    var (o, b) := HandlerOutcome(kind, self, a, n, e);
    if kind.TopicKind? && o.Returned? && o.previousUpToDate && o.authUpToDate {
      var grant, auth := AcceptedEventIsAuthorized(self, a.process, Store(n.events, a.broken), e,
        LocalDataFor(kind, a, n, LocalState(kind, a, n, e).state), EMPTY.WithEvent(e).value);
    }
  }

  /** ProcessEvent accepts exactly the events that are judged so. */
  lemma AcceptedIff(kind: Kind, self: string, a: HandlerAnswers, n: Node, e: Event, recent: bool)
    requires e.validator != self && e.id != "" && e.signed && EMPTY.WithEvent(e).Some? && LocalReads(kind, a, n, e)
    requires LocalState(kind, a, n, e).Known?
    ensures var (o, b) := HandlerOutcome(kind, self, a, n, e);
      && (IsAccepted(o, b, kind.TopicKind?, recent) <==> Judged(kind, a, n, e, recent))
      && (Judged(kind, a, n, e, recent) ==>
            AcceptedBuffer(a.process, Store(n.events, a.broken), e, GrantOf(kind, a, n, e), b))
  {
    var store, b0 := Store(n.events, a.broken), EMPTY.WithEvent(e).value;
    LocalIff(kind, a, n, e);
    var data := LocalDataFor(kind, a, n, LocalOf(kind, a, n, e));
    RecencyIff(kind, a, n, e, recent);
    AdmissionIff(kind, a.process, e);
    var admission := Admission(a.process, e, kind.TopicKind?, b0);
    if admission.Stop? {
      AdmissionStops(kind, a.process, e, b0);
      assert HandlerOutcome(kind, self, a, n, e) == (admission.outcome, admission.buffer);
    } else if kind.TopicKind? {
      TopicResolvedIff(a.process, store, e, data, admission.buffer, recent);
    } else {
      SubnetResolvedIff(a.process, store, e, data, admission.buffer, recent);
    }
  }

  lemma AdmissionStops(kind: Kind, a: Answers, e: Event, b: Buffer)
    ensures var s := Admission(a, e, kind.TopicKind?, b); s.Stop? && s.outcome.Returned? ==> !s.outcome.previousUpToDate
  {
  }
}
