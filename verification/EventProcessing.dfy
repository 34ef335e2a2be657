/** ProcessEvent: whether an event may be applied, and what it queues on the way. */
module EventProcessing {
  import opened Wrappers
  import opened Ordering
  import opened Entities
  import opened DataStates

  datatype Lookup<+T> = Found(value: T) | Missing | Broken

  /** The event store; reading an id in `broken` fails with an error other than not-found. */
  datatype Store = Store(events: map<string, Event>, broken: set<string>) {
    function Get(id: string): Lookup<Event> {
      if id in broken then Broken else if id in events then Found(events[id]) else Missing
    }
  }

  datatype PeerSubnet = Unreachable | Unreadable | Fetched(event: Event)
  datatype PeerEvent = PeerEvent(event: Event, states: seq<string>)
  datatype PeerAuth = PeerAuth(event: Option<Event>, states: seq<Option<Authorization>>)
  datatype AuthSync = SyncFailed | UnpackFailed | AuthSynced(auth: Authorization)

  /** What the network, the primitives and the state index answer while one event is processed. */
  datatype Answers = Answers(
    valid: bool,                          // ValidateEvent accepts
    encodes: bool,                        // the payload encodes to a non-empty string
    agent: string,                        // the address inside Payload.Agent
    signer: Option<string>,               // GetSignerECC on the payload
    subnet: Lookup<()>,                   // GetSubnetStateById
    peerSubnet: PeerSubnet,               // p2p.GetState
    localAuths: Option<seq<Authorization>>, // GetAccountAuthorizations; None is a database error
    peerPrevious: Option<PeerEvent>,      // getEventFromP2p for the previous event
    peerAuth: Option<PeerAuth>,           // getEventFromP2p for the auth event
    authByEvent: Lookup<Authorization>,   // GetAuthorizationByEvent
    authHashes: bool,                     // the auth event's payload hashes
    authSigned: bool,                     // VerifyAuthDataSignature accepts
    authSync: AuthSync)                   // SyncEventByPath for a local event

  datatype StateEvent = StateEvent(id: string, hash: string, timestamp: uint64)

  /** PayloadData: the local state of the entity and the event it came from. */
  datatype LocalData = LocalData(state: Option<Entity>, event: Option<StateEvent>)

  datatype Outcome =
    | Returned(previousUpToDate: bool, authUpToDate: bool, auth: Option<Authorization>, isRecent: bool, error: string)
    | Panicked

  datatype Stage<+S> = Stop(outcome: Outcome, buffer: Buffer) | Go(next: S, buffer: Buffer)

  function Fail(error: string): Outcome {
    Returned(false, false, None, true, error)
  }

  function Local(a: Answers, e: Event): Outcome {
    if e.authEvent.id != "" then
      match a.authSync
      case SyncFailed => Returned(true, false, None, true, "sync failed")
      case UnpackFailed => Returned(true, true, None, true, "")
      case AuthSynced(auth) => Returned(true, true, Some(auth), true, "")
    else
      Returned(true, true, None, true, "")
  }

  /** The 15 second window around the payload's time, in wrapping uint64 arithmetic. */
  predicate OutsideWindow(e: Event) {
    e.payload.timestamp > 0 &&
    (e.payload.timestamp > (e.timestamp + 15000) % 0x1_0000_0000_0000_0000 ||
     e.payload.timestamp < (e.timestamp - 15000) % 0x1_0000_0000_0000_0000)
  }

  predicate IsSubnetEvent(e: Event) {
    e.eventType == CREATE_SUBNET_EVENT || e.eventType == UPDATE_SUBNET_EVENT
  }

  /** Checks on the event alone, then its subnet, then its agent; the event is queued at the end. */
  function Admission(a: Answers, e: Event, agentRequired: bool, b: Buffer): Stage<()> {
    if agentRequired && OutsideWindow(e) then
      Stop(Returned(false, false, None, false, "event timestamp exceeds payload timestamp"), b)
    else if !a.valid then Stop(Fail("invalid event"), b)
    else if !a.encodes then Stop(Fail("invalid event payload"), b)
    else match KnowSubnet(a, e, b)
      case Stop(outcome, b1) => Stop(outcome, b1)
      case Go(_, b1) =>
        if (agentRequired || a.agent != "") && a.signer.None? then Stop(Fail("invalid agent signature"), b1)
        else if (agentRequired || a.agent != "") && a.signer.value != a.agent then
          Stop(Fail("invalid payload signer"), b1)
        else match b1.WithEvent(e)
          case None => Stop(Panicked, b1)
          case Some(b2) => Go((), b2)
  }

  function KnowSubnet(a: Answers, e: Event, b: Buffer): Stage<()> {
    if IsSubnetEvent(e) || a.subnet.Found? then Go((), b)
    else if a.subnet.Broken? then Stop(Returned(false, false, None, false, ""), b)
    else match a.peerSubnet
      case Unreachable => Stop(Fail("unable to get subnetdata"), b)
      case Unreadable => Stop(Fail("unable to unpack subnetdata"), b)
      case Fetched(event) =>
        match b.WithEvent(event)
        case None => Stop(Panicked, b)
        case Some(b1) => Go((), b1)
  }

  /** The last authorization listed for the event's account, agent and subnet. */
  function CurrentAuth(a: Answers, agentRequired: bool): Authorization {
    if agentRequired && a.localAuths.Some? && a.localAuths.value != [] then
      a.localAuths.value[|a.localAuths.value| - 1]
    else NO_AUTHORIZATION
  }

  predicate Unprivileged(auth: Authorization) {
    auth.priviledge.Some? && auth.priviledge.value < MEMBER_PRIVILEDGE
  }

  function AddHistorics(b: Buffer, path: Path, states: seq<string>): Buffer {
    if states == [] then b
    else AddHistorics(b, path, states[..|states| - 1]).WithHistoricState(path, Raw(states[|states| - 1]))
  }

  /** The previous event, as the later stages see it, and whether it is up to date. */
  datatype Previous = Previous(event: Option<Event>, upToDate: bool)

  /** A previous event that has to be fetched is queued, but the variable of the later stages stays nil. */
  function KnowPrevious(a: Answers, store: Store, e: Event, b: Buffer): Stage<Previous> {
    if e.previousEvent.id == "" then Go(Previous(None, true), b)
    else match store.Get(e.previousEvent.id)
      case Broken => Stop(Fail("db err"), b)
      case Found(event) => Go(Previous(Some(event), true), b)
      case Missing =>
        match a.peerPrevious
        case None => Stop(Panicked, b)
        case Some(peer) =>
          if peer.event.synced == Some(true) then
            Go(Previous(None, true),
               AddHistorics(b.Written(peer.event), e.previousEvent, peer.states))
          else Go(Previous(None, false), b)
  }

  /** The authorization the event names, the event that granted it, and what is returned to the caller. */
  datatype Auths = Auths(event: Option<Event>, state: Authorization, returned: Authorization, upToDate: bool)

  function LastReadable(states: seq<Option<Authorization>>): Authorization {
    if states == [] then NO_AUTHORIZATION
    else if states[|states| - 1].Some? then states[|states| - 1].value
    else LastReadable(states[..|states| - 1])
  }

  function FindAuth(a: Answers, store: Store, e: Event, previousUpToDate: bool, authUpToDate: bool,
                    b: Buffer): Stage<Auths> {
    if e.authEvent.id == "" then
      Stop(Returned(previousUpToDate, authUpToDate, None, true, "auth event not provided"), b)
    else match store.Get(e.authEvent.id)
      case Broken => Stop(Returned(previousUpToDate, false, None, true, "db err"), b)
      case Missing =>
        (match a.peerAuth
         case None => Stop(Returned(previousUpToDate, authUpToDate, None, true, "auth event not found"), b)
         case Some(peer) =>
           if peer.states == [] then Stop(Returned(previousUpToDate, false, None, true, "authstate not found"), b)
           else if peer.event.None? then Stop(Returned(previousUpToDate, false, None, true, "unreadable auth event"), b)
           else Go(Auths(peer.event, LastReadable(peer.states), NO_AUTHORIZATION, authUpToDate), b))
      case Found(event) =>
        if event.synced == Some(true) then
          match a.authByEvent
          case Missing => Stop(Returned(previousUpToDate, false, None, true, "event auth state not found"), b)
          case Broken => Stop(Panicked, b)
          case Found(auth) => Go(Auths(Some(event), auth, auth, true), b)
        else Stop(Returned(previousUpToDate, false, None, true, "authEvent not synced"), b)
  }

  /** Whether the named authorization supersedes the local one; None where a nil timestamp is read. */
  function Supersedes(auth: Authorization, current: Authorization): Option<bool> {
    if current.id == "" then Some(true)
    else if current.timestamp.None? || auth.timestamp.None? then None
    else
      Some(IsMoreRecentEvent(
        current.eventId, ToInt(current.timestamp.value), auth.eventId, ToInt(auth.timestamp.value)))
  }

  /** What becomes of the grant that an event names. */
  datatype GrantUse = Refused(outcome: Outcome) | AsCurrent | AsHistory

  function UseGrant(a: Answers, e: Event, current: Authorization, auths: Auths, previousUpToDate: bool): GrantUse
    requires auths.event.Some?
  {
    if current.id == auths.state.id then Refused(Returned(previousUpToDate, false, None, true, ""))
    else if auths.event.value.timestamp >= e.timestamp then Refused(Fail("invalid auth signature"))
    else if auths.state.priviledge.None? then Refused(Panicked)
    else if Unprivileged(auths.state) then Refused(Fail("invalid event auth state"))
    else if !a.authHashes then Refused(Fail("invalid event auth state"))
    else if !a.authSigned then Refused(Fail("invalid auth signature"))
    else match Supersedes(auths.state, current)
      case None => Refused(Panicked)
      case Some(true) => AsCurrent
      case Some(false) =>
        if e.payload.timestamp <= current.timestamp.value && e.timestamp <= current.timestamp.value then AsHistory
        else Refused(Fail("auth event lag"))
  }

  function CheckAuth(a: Answers, e: Event, current: Authorization, auths: Auths, previousUpToDate: bool,
                     b: Buffer): Stage<Auths>
    requires auths.event.Some? && Path(AuthModel, auths.state.id) !in b.current
  {
    var path := Path(AuthModel, auths.state.id);
    match UseGrant(a, e, current, auths, previousUpToDate)
    case Refused(outcome) => Stop(outcome, b)
    case AsCurrent =>
      var b1 := b.WithCurrentState(path, AuthPointer(auths.state));
      (match b1.WithEvent(auths.event.value)
       case None => Stop(Panicked, b1)
       case Some(b2) => Go(auths.(upToDate := true), b2))
    case AsHistory =>
      match b.WithEvent(auths.event.value)
      case None => Stop(Panicked, b)
      case Some(b1) => Go(auths.(upToDate := true), b1.WithHistoricState(path, AuthValue(auths.state)))
  }

  ghost predicate NoAuthQueued(b: Buffer) {
    forall id :: Path(AuthModel, id) !in b.current
  }

  function KnowAuth(a: Answers, store: Store, e: Event, agentRequired: bool, previousUpToDate: bool,
                    b: Buffer): Stage<Auths>
    requires NoAuthQueued(b)
  {
    var current := CurrentAuth(a, agentRequired);
    if (agentRequired || e.authEvent.id != "") && (current.id != "" || current.eventId != e.authEvent.id) then
      match FindAuth(a, store, e, previousUpToDate, !agentRequired, b)
      case Stop(outcome, b1) => Stop(outcome, b1)
      case Go(auths, b1) => CheckAuth(a, e, current, auths, previousUpToDate, b)
    else Go(Auths(None, NO_AUTHORIZATION, NO_AUTHORIZATION, !agentRequired), b)
  }

  /** Whether the event is newer than the local state, and whether it references something it must not. */
  datatype Recency = Recency(isRecent: bool, bad: bool)

  function Compare(s: StateEvent, previous: Option<Event>, e: Event): Recency {
    var isRecent := IsMoreRecentEvent(s.hash, ToInt(s.timestamp), e.hash, ToInt(e.timestamp));
    Recency(isRecent,
      previous.Some? && isRecent && s.hash != e.previousEvent.id &&
      !IsMoreRecentEvent(s.hash, ToInt(s.timestamp), previous.value.id, ToInt(previous.value.timestamp)))
  }

  /** None where a nil state event is read. */
  function KnowRecency(data: LocalData, previous: Option<Event>, e: Event): Option<Recency> {
    if data.state.None? || data.state.value.id == "" || data.state.value.eventId == e.previousEvent.id then
      Some(Recency(true, false))
    else if data.event.None? then None
    else if data.event.value.id == "" then Some(Recency(true, false))
    else Some(Compare(data.event.value, previous, e))
  }

  /** The event uses another authorization than the local one, which its own event does not postdate. */
  predicate StaleAuth(current: Authorization, localAuth: Event)
    requires current.timestamp.Some?
  {
    localAuth.id != "" &&
    !IsMoreRecentEvent(current.id, ToInt(current.timestamp.value), localAuth.id, ToInt(localAuth.timestamp))
  }

  function Conclude(a: Answers, store: Store, e: Event, agentRequired: bool, data: LocalData, previous: Previous,
                    auths: Auths,
                    b: Buffer): (Outcome, Buffer) {
    var current := CurrentAuth(a, agentRequired);
    if !(previous.upToDate && auths.upToDate) then
      (Returned(previous.upToDate, auths.upToDate, Some(auths.returned), true, ""), b)
    else match KnowRecency(data, previous.event, e)
      case None => (Panicked, b)
      case Some(recency) =>
        var local := store.Get(current.eventId);
        if !(recency.isRecent && agentRequired && current.id != "" && current.eventId != e.authEvent.id &&
          auths.event.Some?) then
          Judge(e, auths, recency.isRecent, if recency.bad then "bad request" else "", b)
        else if local.Broken? then (Returned(true, true, Some(auths.returned), true, "db err"), b)
        else if local.Missing? || local.value.id == "" then
          Judge(e, auths, true, if recency.bad then "bad request" else "", b)
        else if current.timestamp.None? then (Panicked, b)
        else
          Judge(e, auths, true,
                if StaleAuth(current, local.value) then "unauthorized"
                else if recency.bad then "bad request"
                else "", b)
  }

  function Judge(e: Event, auths: Auths, isRecent: bool, badEvent: string, b: Buffer): (Outcome, Buffer) {
    if badEvent == "" then (Returned(true, true, Some(auths.returned), isRecent, ""), b)
    else match b.WithEvent(Mark(e.id, badEvent, false))
      case None => (Panicked, b)
      case Some(b1) => (Returned(false, false, Some(auths.returned), isRecent, badEvent), b1)
  }

  /** After admission: authorizations, previous event, auth event, verdict. */
  function Resolve(a: Answers, store: Store, e: Event, agentRequired: bool, data: LocalData, b: Buffer)
    : (Outcome, Buffer)
    requires NoAuthQueued(b)
  {
    var current := CurrentAuth(a, agentRequired);
    if agentRequired && a.localAuths.None? then (Fail("db error"), b)
    else if agentRequired && Unprivileged(current) && current.id == e.authEvent.id then (Fail("no write priviledge"), b)
    else match KnowPrevious(a, store, e, b)
      case Stop(outcome, b1) => (outcome, b1)
      case Go(previous, b1) =>
        PreviousQueuesNoAuth(a, store, e, b);
        match KnowAuth(a, store, e, agentRequired, previous.upToDate, b1)
        case Stop(outcome, b2) => (outcome, b2)
        case Go(auths, b2) => Conclude(a, store, e, agentRequired, data, previous, auths, b2)
  }

  /** ProcessEvent on a node whose key is `self`. */
  function Process(self: string, a: Answers, store: Store, e: Event, agentRequired: bool, data: LocalData, b: Buffer)
    : (Outcome, Buffer)
    requires NoAuthQueued(b)
  {
    if e.validator == self then (Local(a, e), b)
    else match Admission(a, e, agentRequired, b)
      case Stop(outcome, b1) => (outcome, b1)
      case Go(_, b1) => Resolve(a, store, e, agentRequired, data, b1)
  }

  lemma {:induction false} HistoricsKeepTheRest(b: Buffer, path: Path, states: seq<string>)
    ensures AddHistorics(b, path, states).events == b.events && AddHistorics(b, path, states).current == b.current
  {
    if states != [] {
      HistoricsKeepTheRest(b, path, states[..|states| - 1]);
    }
  }

  lemma PreviousQueuesNoAuth(a: Answers, store: Store, e: Event, b: Buffer)
    ensures KnowPrevious(a, store, e, b).buffer.current == b.current
  {
    if e.previousEvent.id != "" && store.Get(e.previousEvent.id).Missing? && a.peerPrevious.Some? {
      var peer := a.peerPrevious.value;
      HistoricsKeepTheRest(b.Written(peer.event), e.previousEvent, peer.states);
    }
  }

  /** The part of ProcessEvent up to the queueing of the event; None goes on. */
  method AdmitEvent(a: Answers, e: Event, agentRequired: bool, states: DataStates) returns (stopped: Option<Outcome>)
    modifies states
    ensures Admission(a, e, agentRequired, old(states.View())) ==
      if stopped.Some? then Stop(stopped.value, states.View()) else Go((), states.View())
  {
    if agentRequired && e.payload.timestamp > 0 &&
       (e.payload.timestamp > (e.timestamp + 15000) % 0x1_0000_0000_0000_0000 ||
        e.payload.timestamp < (e.timestamp - 15000) % 0x1_0000_0000_0000_0000) {
      return Some(Returned(false, false, None, false, "event timestamp exceeds payload timestamp"));
    }
    if !a.valid {
      return Some(Fail("invalid event"));
    }
    if !a.encodes {
      return Some(Fail("invalid event payload"));
    }
    var panics: bool;
    if e.eventType != CREATE_SUBNET_EVENT && e.eventType != UPDATE_SUBNET_EVENT && !a.subnet.Found? {
      if a.subnet.Missing? {
        match a.peerSubnet {
          case Unreachable => return Some(Fail("unable to get subnetdata"));
          case Unreadable => return Some(Fail("unable to unpack subnetdata"));
          case Fetched(event) =>
            panics := states.AddEvent(event);
            if panics {
              return Some(Panicked);
            }
        }
      } else {
        return Some(Returned(false, false, None, false, ""));
      }
    }
    if agentRequired || a.agent != "" {
      if a.signer.None? {
        return Some(Fail("invalid agent signature"));
      }
      if a.signer.value != a.agent {
        return Some(Fail("invalid payload signer"));
      }
    }
    panics := states.AddEvent(e);
    if panics {
      return Some(Panicked);
    }
    return None;
  }

  method ProcessEvent(self: string, a: Answers, store: Store, e: Event, agentRequired: bool, data: LocalData,
                      states: DataStates)
    returns (outcome: Outcome)
    requires NoAuthQueued(states.View())
    modifies states
    ensures (outcome, states.View()) == Process(self, a, store, e, agentRequired, data, old(states.View()))
  {
    if e.validator == self {
      if |e.authEvent.id| > 0 {
        match a.authSync {
          case SyncFailed => return Returned(true, false, None, true, "sync failed");
          case UnpackFailed => return Returned(true, true, None, true, "");
          case AuthSynced(auth) => return Returned(true, true, Some(auth), true, "");
        }
      }
      return Returned(true, true, None, true, "");
    }
    var stopped := AdmitEvent(a, e, agentRequired, states);
    if stopped.Some? {
      return stopped.value;
    }
    outcome := ResolveEvent(a, store, e, agentRequired, data, states);
  }

  /** The rest of ProcessEvent, from the lookup of the agent's authorizations on. */
  method ResolveEvent(a: Answers, store: Store, e: Event, agentRequired: bool, data: LocalData, states: DataStates)
    returns (outcome: Outcome)
    requires NoAuthQueued(states.View())
    modifies states
    ensures (outcome, states.View()) == Resolve(a, store, e, agentRequired, data, old(states.View()))
  {
    var current := NO_AUTHORIZATION;
    if agentRequired {
      if a.localAuths.None? {
        return Fail("db error");
      }
      for i := 0 to |a.localAuths.value|
        invariant current == if i == 0 then NO_AUTHORIZATION else a.localAuths.value[i - 1]
      {
        current := a.localAuths.value[i];
      }
      if current.priviledge.Some? && current.priviledge.value < MEMBER_PRIVILEDGE && current.id == e.authEvent.id {
        return Fail("no write priviledge");
      }
    }
    assert current == CurrentAuth(a, agentRequired);
    var previousEvent: Option<Event> := None;
    var previousEventUpToDate := false;
    var authEventUpToDate := !agentRequired;
    if |e.previousEvent.id| > 0 {
      match store.Get(e.previousEvent.id) {
        case Broken => return Fail("db err");
        case Found(event) =>
          previousEvent := Some(event);
          previousEventUpToDate := true;
        case Missing =>
          if a.peerPrevious.None? {
            return Panicked;
          }
          var peer := a.peerPrevious.value;
          if peer.event.synced == Some(true) {
            QueuePrevious(peer, e.previousEvent, states);
            previousEventUpToDate := true;
          }
      }
    } else {
      previousEventUpToDate := true;
    }
    assert KnowPrevious(a, store, e, old(states.View())) ==
      Go(Previous(previousEvent, previousEventUpToDate), states.View());
    PreviousQueuesNoAuth(a, store, e, old(states.View()));
    var stage := AuthorizeEvent(a, store, e, agentRequired, current, previousEventUpToDate, states);
    if stage.Stop? {
      return stage.outcome;
    }
    outcome := ConcludeEvent(a, store, e, agentRequired, current, data, Previous(previousEvent, previousEventUpToDate),
      stage.next, states);
  }

  method QueuePrevious(peer: PeerEvent, path: Path, states: DataStates)
    modifies states
    ensures states.View() == var b := old(states.View());
      AddHistorics(b.Written(peer.event), path, peer.states)
  {
    states.Events := states.Events[peer.event.id := peer.event];
    ghost var b := states.View();
    for i := 0 to |peer.states|
      invariant states.View() == AddHistorics(b, path, peer.states[..i])
    {
      assert peer.states[..i + 1][..i] == peer.states[..i];
      states.AddHistoricState(path, Raw(peer.states[i]));
    }
    assert peer.states[..|peer.states|] == peer.states;
  }

  method AuthorizeEvent(a: Answers, store: Store, e: Event, agentRequired: bool, current: Authorization,
                        previousUpToDate: bool,
                        states: DataStates) returns (stage: Stage<Auths>)
    requires NoAuthQueued(states.View()) && current == CurrentAuth(a, agentRequired)
    modifies states
    ensures stage == KnowAuth(a, store, e, agentRequired, previousUpToDate, old(states.View())) &&
      stage.buffer == states.View()
  {
    ghost var b := states.View();
    var authUpToDate := !agentRequired;
    var eventAuthState := NO_AUTHORIZATION;
    if !((agentRequired || |e.authEvent.id| > 0) && (current.id != "" || current.eventId != e.authEvent.id)) {
      return Go(Auths(None, NO_AUTHORIZATION, eventAuthState, authUpToDate),
        Buffer(states.Events, states.CurrentStates, states.HistoricState, states.DataCount));
    }
    var snapshot := Buffer(states.Events, states.CurrentStates, states.HistoricState, states.DataCount);
    var found := FindAuth(a, store, e, previousUpToDate, authUpToDate, snapshot);
    if found.Stop? {
      return found;
    }
    var authEvent, auth := found.next.event.value, found.next.state;
    var panics: bool;
    match UseGrant(a, e, current, found.next, previousUpToDate) {
      case Refused(outcome) => return Stop(outcome, snapshot);
      case AsCurrent =>
        panics := states.AddCurrentState(Path(AuthModel, auth.id), AuthPointer(auth));
        panics := states.AddEvent(authEvent);
      case AsHistory =>
        panics := states.AddEvent(authEvent);
        if !panics {
          states.AddHistoricState(Path(AuthModel, auth.id), AuthValue(auth));
        }
    }
    snapshot := Buffer(states.Events, states.CurrentStates, states.HistoricState, states.DataCount);
    stage := if panics then Stop(Panicked, snapshot) else Go(found.next.(upToDate := true), snapshot);
  }

  method ConcludeEvent(a: Answers, store: Store, e: Event, agentRequired: bool, current: Authorization, data: LocalData,
                       previous: Previous, auths: Auths, states: DataStates) returns (outcome: Outcome)
    requires current == CurrentAuth(a, agentRequired)
    modifies states
    ensures (outcome, states.View()) == Conclude(a, store, e, agentRequired, data, previous, auths, old(states.View()))
  {
    var eventIsMoreRecent := true;
    var badEvent := "";
    if previous.upToDate && auths.upToDate {
      if data.state.Some? && |data.state.value.id| > 0 && data.state.value.eventId != e.previousEvent.id {
        if data.event.None? {
          return Panicked;
        }
        var s := data.event.value;
        if |s.id| > 0 {
          eventIsMoreRecent := IsMoreRecentEvent(s.hash, ToInt(s.timestamp), e.hash, ToInt(e.timestamp));
          if previous.event.Some? && eventIsMoreRecent && s.hash != e.previousEvent.id {
            var p := previous.event.value;
            var previousEventMoreRecent := IsMoreRecentEvent(s.hash, ToInt(s.timestamp), p.id, ToInt(p.timestamp));
            if !previousEventMoreRecent {
              badEvent := "bad request";
            }
          }
        }
      }
      if eventIsMoreRecent && agentRequired && current.id != "" && current.eventId != e.authEvent.id &&
        auths.event.Some? {
        var localAuthEvent := store.Get(current.eventId);
        if localAuthEvent.Broken? {
          return Returned(previous.upToDate, auths.upToDate, Some(auths.returned), eventIsMoreRecent, "db err");
        }
        if localAuthEvent.Found? && localAuthEvent.value.id != "" {
          if current.timestamp.None? {
            return Panicked;
          }
          var l := localAuthEvent.value;
          var authMoreRecent :=
            IsMoreRecentEvent(current.id, ToInt(current.timestamp.value), l.id, ToInt(l.timestamp));
          if !authMoreRecent {
            badEvent := "unauthorized";
          }
        }
      }
      if badEvent != "" {
        var panics := states.AddEvent(Mark(e.id, badEvent, false));
        if panics {
          return Panicked;
        }
        return Returned(false, false, Some(auths.returned), eventIsMoreRecent, badEvent);
      }
    }
    return Returned(previous.upToDate, auths.upToDate, Some(auths.returned), eventIsMoreRecent, "");
  }
}
