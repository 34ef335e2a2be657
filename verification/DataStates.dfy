/** DataStates: what handling one event wants to write, collected before it is committed. */
module DataStates {
  import opened Wrappers
  import opened Entities

  /** A queued state. Auth states fetched while processing an event are queued through a pointer. */
  datatype State =
    EntityValue(entity: Entity) | AuthValue(auth: Authorization) | AuthPointer(auth: Authorization) | Raw(bytes: string)

  function Increment(n: uint16): uint16 {
    (n + 1) % 0x1_0000
  }

  /** An event with an error is not valid. */
  function Marked(e: Event): Event {
    if e.error != "" then e.(isValid := Some(false)) else e
  }

  datatype Buffer = Buffer(
    events: map<string, Event>, current: map<Path, State>, historic: map<Path, State>, count: uint16) {

    /** AddEvent; None where the source panics: a first add without a signature. */
    function WithEvent(e: Event): Option<Buffer> {
      var event := Marked(e);
      if event.id !in events || events[event.id].id == "" then
        if event.signed then Some(this.(events := events[event.id := event], count := Increment(count))) else None
      else
        Some(this.(events := events[event.id := Overlay(event, events[event.id])]))
    }

    /** Events[event.ID] = event: not counted. */
    function Written(e: Event): Buffer {
      this.(events := events[e.id := e])
    }

    /** The first AddCurrentState on a path. */
    function WithCurrentState(path: Path, state: State): Buffer
      requires path !in current
    {
      this.(current := current[path := state], count := Increment(count))
    }

    /**
     * AddCurrentState; None where the source panics: UpdateStruct reflects on two pointers, so a second state on a
     * path is overlaid only if both were queued through one.
     */
    function WithState(path: Path, state: State): Option<Buffer> {
      if path !in current then Some(WithCurrentState(path, state))
      else if state.AuthPointer? && current[path].AuthPointer? then
        Some(this.(current := current[path := AuthPointer(OverlayAuthorization(state.auth, current[path].auth))]))
      else None
    }

    function WithHistoricState(path: Path, state: State): Buffer {
      this.(historic := historic[path := state], count := if path in historic then count else Increment(count))
    }
  }

  const EMPTY := Buffer(map[], map[], map[], 0)

  /** Adding an event a second time changes nothing. */
  lemma AddEventIsIdempotent(b: Buffer, e: Event)
    requires e.id != "" && b.WithEvent(e).Some?
    ensures b.WithEvent(e).value.WithEvent(e) == b.WithEvent(e)
  {
    var event := Marked(e);
    var once := b.WithEvent(e).value;
    OverlayLaws(event, if e.id in b.events then b.events[e.id] else event, event);
    assert Overlay(event, event) == event;
    assert once.events[e.id := Overlay(event, once.events[e.id])] == once.events;
  }

  // ---------------------------------------------------------------------------------------------
  // Runs of additions.

  /** The last one is ProcessEvent's own write of a fetched previous event. */
  datatype Addition =
    | AddsEvent(e: Event)
    | AddsCurrent(path: Path, state: State)
    | AddsHistoric(at: Path, bytes: State)
    | Writes(fetched: Event)

  /** None where the source panics. */
  function Adding(b: Buffer, a: Addition): Option<Buffer> {
    match a
    case AddsEvent(e) => b.WithEvent(e)
    case AddsCurrent(path, state) => b.WithState(path, state)
    case AddsHistoric(path, state) => Some(b.WithHistoricState(path, state))
    case Writes(e) => Some(b.Written(e))
  }

  function Reached(adds: seq<Addition>): Option<Buffer> {
    if adds == [] then Some(EMPTY)
    else
      var before := Reached(adds[..|adds| - 1]);
      if before.Some? then Adding(before.value, adds[|adds| - 1]) else None
  }

  function Entries(b: Buffer): nat {
    |b.events| + |b.current| + |b.historic|
  }

  predicate EventsNamed(events: map<string, Event>) {
    forall id :: id in events ==> events[id].id != ""
  }

  /** The count is the number of entries less those that were written past it, as a 16-bit number. */
  predicate Counts(b: Buffer, missed: int) {
    b.count == (Entries(b) - missed) % 0x1_0000 && EventsNamed(b.events)
  }

  /** A direct write of an event that is not queued yet. */
  function Misses(b: Buffer, a: Addition): nat {
    if a.Writes? && a.fetched.id !in b.events then 1 else 0
  }

  function Missed(adds: seq<Addition>): nat {
    if adds == [] then 0
    else
      var before := Reached(adds[..|adds| - 1]);
      Missed(adds[..|adds| - 1]) + if before.Some? then Misses(before.value, adds[|adds| - 1]) else 0
  }

  predicate Named(a: Addition) {
    (a.AddsEvent? ==> a.e.id != "") && (a.Writes? ==> a.fetched.id != "")
  }

  lemma PutSize<K, V>(m: map<K, V>, k: K, v: V)
    ensures |m[k := v]| == |m| + if k in m then 0 else 1
  {
    assert m[k := v].Keys == m.Keys + {k};
  }

  lemma NextCount(n: int)
    ensures Increment(n % 0x1_0000) == (n + 1) % 0x1_0000
  {
  }

  lemma AddingEventCounts(b: Buffer, e: Event, missed: int)
    requires Counts(b, missed) && e.id != "" && b.WithEvent(e).Some?
    ensures Counts(b.WithEvent(e).value, missed)
  {
    var after := b.WithEvent(e).value;
    if e.id !in b.events {
      NextCount(Entries(b) - missed);
      PutSize(b.events, e.id, Marked(e));
      assert after.events == b.events[e.id := Marked(e)];
    } else {
      var put := Overlay(Marked(e), b.events[e.id]);
      PutSize(b.events, e.id, put);
      assert after.events == b.events[e.id := put] && put.id != "";
    }
  }

  lemma AddingCounts(b: Buffer, a: Addition, missed: int)
    requires Counts(b, missed) && Named(a) && Adding(b, a).Some?
    ensures Counts(Adding(b, a).value, missed + Misses(b, a))
  {
    NextCount(Entries(b) - missed);
    match a
    case AddsEvent(e) => AddingEventCounts(b, e, missed);
    case AddsCurrent(path, state) => PutSize(b.current, path, b.WithState(path, state).value.current[path]);
    case AddsHistoric(path, state) => PutSize(b.historic, path, state);
    case Writes(e) => PutSize(b.events, e.id, e);
  }

  /**
   * After any run DataCount is the number of entries less the missed ones, so Empty is right as long as none was
   * missed.
   */
  lemma {:induction false} CountIsEntries(adds: seq<Addition>)
    requires (forall a :: a in adds ==> Named(a)) && Reached(adds).Some?
    ensures Counts(Reached(adds).value, Missed(adds))
    ensures var b := Reached(adds).value; b.count == 0 <==> (Entries(b) - Missed(adds)) % 0x1_0000 == 0
  {
    if adds != [] {
      CountIsEntries(adds[..|adds| - 1]);
      AddingCounts(Reached(adds[..|adds| - 1]).value, adds[|adds| - 1], Missed(adds[..|adds| - 1]));
    }
  }

  /** Adding events one after the other. */
  function WithEvents(b: Buffer, events: seq<Event>): Option<Buffer> {
    if events == [] then Some(b)
    else
      var before := WithEvents(b, events[..|events| - 1]);
      if before.Some? then before.value.WithEvent(events[|events| - 1]) else None
  }

  /** All of them in one. */
  function Combined(events: seq<Event>): Event
    requires events != []
  {
    if |events| == 1 then Marked(events[0]) else Overlay(Marked(events[|events| - 1]), Combined(events[..|events| - 1]))
  }

  predicate AllOf(id: string, events: seq<Event>) {
    forall e :: e in events ==> e.id == id
  }

  /** Onto a queued event, partial events never panic, count nothing, and leave one overlay of their combination. */
  lemma {:induction false} PartialsCombine(b: Buffer, id: string, partials: seq<Event>)
    requires id != "" && id in b.events && b.events[id].id == id && partials != [] && AllOf(id, partials)
    ensures WithEvents(b, partials) == Some(b.(events := b.events[id := Overlay(Combined(partials), b.events[id])]))
    ensures Combined(partials).id == id
  {
    var init, last := partials[..|partials| - 1], partials[|partials| - 1];
    assert last in partials;
    if |partials| == 1 {
      assert partials == [last] && WithEvents(b, init) == Some(b);
    } else {
      assert AllOf(id, init);
      PartialsCombine(b, id, init);
      OverlayLaws(Marked(last), Combined(init), b.events[id]);
      var before := WithEvents(b, init).value;
      assert before.events[id].id == id;
      assert before.events[id := Overlay(Combined(partials), b.events[id])] ==
        b.events[id := Overlay(Combined(partials), b.events[id])];
    }
  }

  /** So adding the same partial events all over again changes nothing. */
  lemma ReplayChangesNothing(b: Buffer, id: string, partials: seq<Event>)
    requires id != "" && id in b.events && b.events[id].id == id && partials != [] && AllOf(id, partials)
    ensures WithEvents(b, partials).Some? &&
      WithEvents(WithEvents(b, partials).value, partials) == WithEvents(b, partials)
  {
    PartialsCombine(b, id, partials);
    var once := WithEvents(b, partials).value;
    PartialsCombine(once, id, partials);
    OverlayLaws(Combined(partials), b.events[id], b.events[id]);
    assert once.events[id := once.events[id]] == once.events;
  }

  /** The event is queued, or laid over the queued one; with an error it is not valid. */
  predicate IsKept(queued: bool, e: Event, before: map<string, Event>, after: map<string, Event>) {
    var event := e.(isValid := if e.error != "" then Some(false) else e.isValid);
    && e.id in after && after == before[e.id := after[e.id]]
    && if queued then e.id in before && Updates(after[e.id], event, before[e.id]) else after[e.id] == event
  }

  class DataStates {
    var Events: map<string, Event>
    var CurrentStates: map<Path, State>
    var HistoricState: map<Path, State>
    var DataCount: uint16

    ghost function View(): Buffer
      reads this
    {
      Buffer(Events, CurrentStates, HistoricState, DataCount)
    }

    predicate IsQueued(id: string)
      reads this
    {
      id in Events && Events[id].id != ""
    }

    constructor ()
      ensures View() == EMPTY
    {
      Events, CurrentStates, HistoricState, DataCount := map[], map[], map[], 0;
    }

    method AddEvent(e: Event) returns (panics: bool)
      modifies this
      ensures panics <==> old(View()).WithEvent(e).None?
      ensures View() == if panics then old(View()) else old(View()).WithEvent(e).value
      ensures panics <==> !old(IsQueued(e.id)) && !e.signed
      ensures !panics ==> IsKept(old(IsQueued(e.id)), e, old(Events), Events)
    {
      var event := e;
      if |event.error| > 0 {
        event := event.(isValid := Some(false));
      }
      if event.id !in Events || Events[event.id].id == "" {
        if !event.signed {
          return true;
        }
        Events := Events[event.id := event];
        DataCount := Increment(DataCount);
      } else {
        var s := Events[event.id];
        Events := Events[event.id := Overlay(event, s)];
      }
      return false;
    }

    method AddCurrentState(path: Path, state: State) returns (panics: bool)
      modifies this
      ensures panics <==> old(View()).WithState(path, state).None?
      ensures View() == if panics then old(View()) else old(View()).WithState(path, state).value
      ensures path in old(CurrentStates) && !panics ==>
        state.AuthPointer? && old(CurrentStates[path]).AuthPointer? && CurrentStates[path].AuthPointer? &&
        UpdatesAuthorization(CurrentStates[path].auth, state.auth, old(CurrentStates[path].auth))
    {
      if path !in CurrentStates {
        CurrentStates := CurrentStates[path := state];
        DataCount := Increment(DataCount);
        return false;
      }
      var s := CurrentStates[path];
      if !state.AuthPointer? || !s.AuthPointer? {
        return true;
      }
      CurrentStates := CurrentStates[path := AuthPointer(OverlayAuthorization(state.auth, s.auth))];
      return false;
    }

    method AddHistoricState(path: Path, state: State)
      modifies this
      ensures View() == old(View()).WithHistoricState(path, state)
    {
      if path !in HistoricState {
        DataCount := Increment(DataCount);
      }
      HistoricState := HistoricState[path := state];
    }
  }
}
