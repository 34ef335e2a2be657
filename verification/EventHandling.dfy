/** The pubsub handlers for subnet and topic events: local state, ProcessEvent, verdict on the event, commit. */
module EventHandling {
  import opened Wrappers
  import opened Entities
  import opened DataStates
  import opened EventProcessing

  /** A subnet event needs no agent; a topic event does. */
  datatype Kind = SubnetKind | TopicKind {
    function Model(): Model {
      if SubnetKind? then SubnetModel else TopicModel
    }
  }

  /** The current states by path, every stored event, and the data kept for superseded states. */
  datatype Node = Node(states: map<Path, Entity>, events: map<string, Event>, historic: map<Path, State>)

  datatype HandlerAnswers = HandlerAnswers(
    process: Answers,
    derivedId: string,      // GetId from the data's signature, for data without an id
    broken: set<string>,    // event ids whose read fails
    stateBroken: bool,      // the state index fails with an error other than not-found
    peerTopic: bool,        // a peer has the topic that is missing here
    dataError: string)      // what ValidateSubnetData or ValidateTopicData's own checks report

  /** The new node and the handler's error, or a panic and what is stored by then. */
  datatype Handled = Done(node: Node, error: string) | Crashed(node: Node)

  function EntityId(a: HandlerAnswers, e: Event): string {
    if e.payload.data.id == "" then a.derivedId else e.payload.data.id
  }

  function EntityData(kind: Kind, e: Event): Entity {
    var data := e.payload.data.(eventId := e.id);
    if kind.TopicKind? then data.(timestamp := e.payload.timestamp) else data
  }

  /** The entity's local state; None with an error, or a panic on a topic obtained from a peer. */
  datatype LocalLookup = Known(state: Option<Entity>) | Failed(error: string) | Panics

  function LocalState(kind: Kind, a: HandlerAnswers, n: Node, e: Event): LocalLookup {
    var path := Path(kind.Model(), EntityId(a, e));
    if kind.TopicKind? && e.payload.data.id == "" then Known(None)
    else if a.stateBroken then Failed("db error")
    else if path in n.states then Known(if n.states[path].id == "" then None else Some(n.states[path]))
    else if kind.SubnetKind? then Known(None)
    else if a.peerTopic then Panics
    else Failed("state not found")
  }

  /**
   * Queued states that stop a commit: an auth state queued through a pointer, a first state whose id and signature
   * are both missing, and an update of a subnet that has no default privilege before or after it.
   */
  predicate Uncommittable(states: map<Path, Entity>, p: Path, s: State) {
    s.AuthPointer? ||
    (s.EntityValue? &&
     if p in states then p.model.SubnetModel? && (states[p].privilege.None? || s.entity.privilege.None?)
     else p.id == "")
  }

  predicate CurrentFails(states: map<Path, Entity>, current: map<Path, State>) {
    exists p | p in current :: Uncommittable(states, p, current[p])
  }

  predicate EventsFail(events: map<string, Event>) {
    exists k | k in events :: !events[k].signed
  }

  /** Commit; None where it panics: a state that cannot be committed, or an event without an id to save it under. */
  function Commit(n: Node, b: Buffer): Option<Node> {
    if CurrentFails(n.states, b.current) || EventsFail(b.events) then None
    else Some(Node(n.states + NewStates(n.states, b.current), n.events + b.events, n.historic + b.historic))
  }

  /** What is stored after a commit: historic states are written outside the transactions, before the events. */
  function Committed(n: Node, b: Buffer): Node {
    if CurrentFails(n.states, b.current) then n
    else if EventsFail(b.events) then n.(historic := n.historic + b.historic)
    else Commit(n, b).value
  }

  /** A first state gets the id of its path; an update is stored as it came. */
  function NewStates(states: map<Path, Entity>, current: map<Path, State>): map<Path, Entity> {
    map p | p in current && current[p].EntityValue? ::
      if p in states then current[p].entity else current[p].entity.(id := p.id)
  }

  function Finish(n: Node, b: Buffer, error: string): Handled {
    if Commit(n, b).Some? then Done(Committed(n, b), error) else Crashed(Committed(n, b))
  }

  /** A panic after the commit was deferred: it runs while the handler unwinds. */
  function Unwind(n: Node, b: Buffer): Handled {
    Crashed(Committed(n, b))
  }

  /** ValidateSubnetData or ValidateTopicData on a remote event; None where a nil privilege is read. */
  function Verdict(kind: Kind, self: string, a: HandlerAnswers, e: Event, auth: Option<Authorization>): Option<string> {
    if e.validator == self then Some("")
    else if kind.TopicKind? && auth.Some? && auth.value.priviledge.None? then None
    else if kind.TopicKind? && auth.Some? && Unprivileged(auth.value) then Some("no permission")
    else Some(a.dataError)
  }

  /** What the handler queues once the event is known to be applicable. */
  function Apply(kind: Kind, a: HandlerAnswers, e: Event, isRecent: bool, error: string, b: Buffer): Stage<()> {
    var id, data := EntityId(a, e), EntityData(kind, e);
    match b.WithEvent(Mark(e.id, error, error == ""))
    case None => Stop(Panicked, b)
    case Some(b1) =>
      if error != "" then Go((), b1)
      else if !isRecent then
        Go((), b1.WithHistoricState(Path(kind.Model(), if kind.SubnetKind? then data.id else id), EntityValue(data)))
      else match b1.WithState(Path(kind.Model(), id), EntityValue(if kind.SubnetKind? then data else data.(id := id)))
        case None => Stop(Panicked, b1)
        case Some(b2) => Go((), b2)
  }

  function LocalDataFor(kind: Kind, a: HandlerAnswers, n: Node, state: Option<Entity>): LocalData {
    if state.None? then LocalData(None, None)
    else LocalData(state,
      match Store(n.events, a.broken).Get(state.value.eventId)
      case Found(s) => if state.value.eventId == "" then None else Some(StateEvent(s.id, s.hash, s.timestamp))
      case _ => None)
  }

  predicate StateEventBroken(kind: Kind, a: HandlerAnswers, state: Option<Entity>) {
    kind.TopicKind? && state.Some? && state.value.eventId != "" && state.value.eventId in a.broken
  }

  /** HandleNewPubSubSubnetEvent and HandleNewPubSubTopicEvent. */
  function Handle(kind: Kind, self: string, a: HandlerAnswers, n: Node, e: Event): Handled {
    match EMPTY.WithEvent(e)
    case None => Crashed(n)
    case Some(b) =>
      match LocalState(kind, a, n, e)
      case Panics => Unwind(n, b)
      case Failed(error) => Finish(n, b, error)
      case Known(state) =>
        if StateEventBroken(kind, a, state) then Finish(n, b, "db error") else
        var (outcome, b1) := Process(self, a.process, Store(n.events, a.broken), e, kind.TopicKind?,
          LocalDataFor(kind, a, n, state), b);
        Settle(kind, self, a, n, e, outcome, b1)
  }

  /** The handler after ProcessEvent returned. */
  function Settle(kind: Kind, self: string, a: HandlerAnswers, n: Node, e: Event, outcome: Outcome,
                  b: Buffer): Handled {
    if outcome.Panicked? then Unwind(n, b)
    else if outcome.error != "" then Finish(n, b, outcome.error)
    else if !outcome.previousUpToDate || (kind.TopicKind? && !outcome.authUpToDate) then Finish(n, b, "")
    else match Verdict(kind, self, a, e, outcome.auth)
      case None => Unwind(n, b)
      case Some(error) =>
        match Apply(kind, a, e, outcome.isRecent, error, b)
        case Stop(_, b1) => Unwind(n, b1)
        case Go(_, b1) => Finish(n, b1, "")
  }

  /** The loop over CurrentStates, which Go runs in any order. */
  method CommitCurrent(before: map<Path, Entity>, current: map<Path, State>)
    returns (crashed: bool, states: map<Path, Entity>)
    ensures crashed <==> CurrentFails(before, current)
    ensures !crashed ==> states == before + NewStates(before, current)
  {
    ghost var all := NewStates(before, current);
    states := before;
    var rest := current.Keys;
    while rest != {}
      invariant rest <= current.Keys
      invariant forall p | p in current && p !in rest :: !Uncommittable(before, p, current[p])
      invariant states.Keys == before.Keys + (all.Keys - rest)
      invariant forall p | p in before && (p in rest || p !in all) :: states[p] == before[p]
      invariant forall p | p in all && p !in rest :: states[p] == all[p]
    {
      var p :| p in rest;
      rest := rest - {p};
      if current[p].AuthPointer? {
        return true, states;
      }
      if current[p].EntityValue? {
        var newState := current[p].entity;
        if p in states {
          if p.model.SubnetModel? && (states[p].privilege.None? || newState.privilege.None?) {
            return true, states;
          }
          states := states[p := newState];
        } else {
          if p.id == "" {
            return true, states;
          }
          states := states[p := newState.(id := p.id)];
        }
      }
    }
    assert states.Keys == (before + all).Keys;
    return false, states;
  }

  /** The loop over Events. */
  method CommitEvents(before: map<string, Event>, queued: map<string, Event>)
    returns (crashed: bool, events: map<string, Event>)
    ensures crashed <==> EventsFail(queued)
    ensures !crashed ==> events == before + queued
  {
    events := before;
    var rest := queued.Keys;
    while rest != {}
      invariant rest <= queued.Keys
      invariant forall k | k in queued && k !in rest :: queued[k].signed
      invariant events == before + (map k | k in queued && k !in rest :: queued[k])
    {
      var k :| k in rest;
      rest := rest - {k};
      if !queued[k].signed {
        return true, events;
      }
      events := events[k := queued[k]];
    }
    return false, events;
  }

  class NodeStores {
    var States: map<Path, Entity>
    var Events: map<string, Event>
    var Historic: map<Path, State>

    ghost function View(): Node
      reads this
    {
      Node(States, Events, Historic)
    }

    constructor ()
      ensures View() == Node(map[], map[], map[])
    {
      States, Events, Historic := map[], map[], map[];
    }

    /** DataStates.Commit. */
    method CommitStates(states: DataStates) returns (crashed: bool)
      modifies this
      ensures crashed <==> Commit(old(View()), states.View()).None?
      ensures View() == Committed(old(View()), states.View())
      ensures crashed ==> States == old(States) && Events == old(Events)
      ensures !crashed ==>
        Events == old(Events) + states.Events && States == old(States) + NewStates(old(States), states.CurrentStates)
      ensures Historic == if CurrentFails(old(States), states.CurrentStates) then old(Historic)
        else old(Historic) + states.HistoricState
    {
      var newStates, newEvents;
      crashed, newStates := CommitCurrent(States, states.CurrentStates);
      if crashed {
        return;
      }
      Historic := Historic + states.HistoricState;
      crashed, newEvents := CommitEvents(Events, states.Events);
      if crashed {
        return;
      }
      States, Events := newStates, newEvents;
    }

    /** The handler. Once its commit is deferred, a panic commits as well. */
    method HandleNewPubSubEvent(kind: Kind, self: string, a: HandlerAnswers, e: Event)
      returns (crashed: bool, error: string)
      modifies this
      ensures Handle(kind, self, a, old(View()), e) == if crashed then Crashed(View()) else Done(View(), error)
    {
      error := "";
      var states := new DataStates();
      crashed := states.AddEvent(e);
      if crashed {
        return;
      }
      crashed, error := HandleQueued(kind, self, a, e, states);
      var failed := CommitStates(states);
      crashed := crashed || failed;
    }

    /** The handler's body between deferring the commit and running it. */
    method HandleQueued(kind: Kind, self: string, a: HandlerAnswers, e: Event, states: DataStates)
      returns (crashed: bool, error: string)
      requires EMPTY.WithEvent(e) == Some(states.View())
      modifies states
      ensures Handle(kind, self, a, View(), e) ==
        if crashed then Unwind(View(), states.View()) else Finish(View(), states.View(), error)
    {
      crashed, error := false, "";
      var local := LocalState(kind, a, Node(States, Events, Historic), e);
      if local.Panics? {
        return true, "";
      }
      if local.Failed? {
        return false, local.error;
      }
      if StateEventBroken(kind, a, local.state) {
        return false, "db error";
      }
      var localData := LocalDataFor(kind, a, Node(States, Events, Historic), local.state);
      var outcome := ProcessEvent(self, a.process, Store(Events, a.broken), e, kind.TopicKind?, localData, states);
      if outcome.Panicked? {
        return true, "";
      }
      if outcome.error != "" || !outcome.previousUpToDate || (kind.TopicKind? && !outcome.authUpToDate) {
        return false, outcome.error;
      }
      var verdict := Verdict(kind, self, a, e, outcome.auth);
      if verdict.None? {
        return true, "";
      }
      crashed := ApplyEvent(kind, a, e, outcome.isRecent, verdict.value, states);
    }

    /** Marks the event and queues its data as current or historic state. */
    method ApplyEvent(kind: Kind, a: HandlerAnswers, e: Event, isRecent: bool, error: string, states: DataStates)
      returns (crashed: bool)
      modifies states
      ensures Apply(kind, a, e, isRecent, error, old(states.View())) ==
        if crashed then Stop(Panicked, states.View()) else Go((), states.View())
    {
      var id := EntityId(a, e);
      var data := EntityData(kind, e);
      if error != "" {
        crashed := states.AddEvent(Mark(e.id, error, false));
        return;
      }
      crashed := states.AddEvent(Mark(e.id, "", true));
      if crashed {
        return;
      }
      if isRecent {
        crashed := states.AddCurrentState(
          Path(kind.Model(), id), EntityValue(if kind.SubnetKind? then data else data.(id := id)));
      } else {
        states.AddHistoricState(Path(kind.Model(), if kind.SubnetKind? then data.id else id), EntityValue(data));
      }
    }
  }
}
