/** AddEvent at the level of its pointers: IsValid and Synced are shared with the caller's event. */
module EventPointers {
  import opened Wrappers
  import opened Entities
  import opened DataStates

  /** A *bool that is not nil. */
  class Cell {
    var value: bool

    constructor (value: bool)
      ensures this.value == value
    {
      this.value := value;
    }
  }

  /** An event as a struct that holds two pointers; the flags inside `fields` are not used. */
  datatype EventStruct = EventStruct(fields: Event, isValid: Cell?, synced: Cell?)

  ghost function Read(c: Cell?): Option<bool>
    reads c
  {
    if c == null then None else Some(c.value)
  }

  /** The event that a struct stands for. */
  ghost function Deref(e: EventStruct): Event
    reads e.isValid, e.synced
  {
    e.fields.(isValid := Read(e.isValid), synced := Read(e.synced))
  }

  ghost function Cells(e: EventStruct): set<Cell> {
    (if e.isValid == null then {} else {e.isValid}) + (if e.synced == null then {} else {e.synced})
  }

  predicate Apart(e: EventStruct) {
    e.isValid == null || e.isValid != e.synced
  }

  /** A pointer that is not nil stays: what is written through it is seen by everyone who holds it. */
  predicate KeepsPointers(now: EventStruct, was: EventStruct) {
    (was.isValid != null ==> now.isValid == was.isValid) && (was.synced != null ==> now.synced == was.synced)
  }

  /** UpdateStruct on one pointer field: a non-nil source is copied into the cell of the destination. */
  method UpdatePointer(src: Cell?, dst: Cell?) returns (result: Cell?)
    modifies if dst == null then {} else {dst}
    ensures Read(result) == Field(old(Read(src)), None, old(Read(dst)))
    ensures dst != null ==> result == dst
    ensures dst == null && result != null ==> fresh(result)
  {
    result := dst;
    if src != null {
      if dst == null {
        result := new Cell(false);
      }
      result.value := src.value;
    }
  }

  /** What is read through the source's second pointer, which may be the first one of the destination. */
  ghost function SecondRead(src: EventStruct, dst: EventStruct): Option<bool>
    reads src.isValid, src.synced
  {
    if src.synced != null && src.synced == dst.isValid && src.isValid != null then Read(src.isValid)
    else Read(src.synced)
  }

  /** Neither write of the one struct into the other disturbs the other write. */
  predicate Separate(src: EventStruct, dst: EventStruct) {
    Apart(dst) && (src.synced == null || src.synced != dst.isValid)
  }

  /** The two pointer fields, one after the other. */
  method UpdateFlags(src: EventStruct, dst: EventStruct) returns (isValid: Cell?, synced: Cell?)
    modifies Cells(dst)
    ensures Read(synced) == Field(old(SecondRead(src, dst)), None,
      if Apart(dst) then old(Read(dst.synced)) else Field(old(Read(src.isValid)), None, old(Read(dst.synced))))
    ensures Read(isValid) ==
      if !Apart(dst) then Read(synced) else Field(old(Read(src.isValid)), None, old(Read(dst.isValid)))
    ensures dst.isValid != null ==> isValid == dst.isValid
    ensures dst.isValid == null ==> isValid == null || fresh(isValid)
    ensures dst.synced != null ==> synced == dst.synced
    ensures dst.synced == null ==> synced == null || fresh(synced)
    ensures Apart(dst) ==> isValid == null || isValid != synced
  {
    isValid := UpdatePointer(src.isValid, dst.isValid);
    synced := UpdatePointer(src.synced, dst.synced);
  }

  lemma OverlayFlags(src: Event, dst: Event, a: Option<bool>, b: Option<bool>, c: Option<bool>, d: Option<bool>)
    ensures Overlay(src.(isValid := a, synced := b), dst.(isValid := c, synced := d)) ==
      Overlay(src, dst).(isValid := Field(a, None, c), synced := Field(b, None, d))
  {
  }

  /**
   * UpdateStruct on events. The flags are written one after the other: the result reads as the overlay if the writes
   * are separate, and in any case as stated.
   */
  method UpdateStruct(src: EventStruct, dst: EventStruct) returns (result: EventStruct)
    modifies Cells(dst)
    ensures Separate(src, dst) ==> Deref(result) == Overlay(old(Deref(src)), old(Deref(dst)))
    ensures Separate(src, dst) ==> Updates(Deref(result), old(Deref(src)), old(Deref(dst)))
    ensures result.fields == Overlay(src.fields, dst.fields) && Updates(result.fields, src.fields, dst.fields)
    ensures Read(result.synced) == Field(old(SecondRead(src, dst)), None,
      if Apart(dst) then old(Read(dst.synced)) else Field(old(Read(src.isValid)), None, old(Read(dst.synced))))
    ensures Read(result.isValid) ==
      if !Apart(dst) then Read(result.synced) else Field(old(Read(src.isValid)), None, old(Read(dst.isValid)))
    ensures dst.isValid != null ==> result.isValid == dst.isValid
    ensures dst.isValid == null ==> result.isValid == null || fresh(result.isValid)
    ensures dst.synced != null ==> result.synced == dst.synced
    ensures dst.synced == null ==> result.synced == null || fresh(result.synced)
    ensures Apart(dst) ==> Apart(result)
  {
    ghost var was, now := Deref(dst), Deref(src);
    OverlayFlags(src.fields, dst.fields, now.isValid, now.synced, was.isValid, was.synced);
    OverlayUpdates(src.fields, dst.fields, Overlay(src.fields, dst.fields));
    OverlayUpdates(now, was, Overlay(now, was));
    var isValid, synced := UpdateFlags(src, dst);
    result := EventStruct(Overlay(src.fields, dst.fields), isValid, synced);
  }

  /** An event with an error gets a flag of its own that says it is not valid. */
  method MarkError(e: EventStruct) returns (event: EventStruct)
    ensures Deref(event) == Marked(Deref(e)) && event.fields == e.fields && event.synced == e.synced
    ensures Apart(e) ==> Apart(event)
    ensures if e.fields.error == "" then event.isValid == e.isValid else event.isValid != null && fresh(event.isValid)
  {
    event := e;
    if |event.fields.error| > 0 {
      var no := new Cell(false);
      event := event.(isValid := no);
    }
  }

  /** No two queued events share a flag, and no event's two flags share a pointer. */
  ghost predicate AllApart(events: map<string, EventStruct>) {
    && (forall id :: id in events ==> Apart(events[id]))
    && (forall i, j :: i in events && j in events && i != j ==> Cells(events[i]) !! Cells(events[j]))
  }

  lemma PutApart(events: map<string, EventStruct>, id: string, e: EventStruct)
    requires AllApart(events) && Apart(e)
    requires forall i :: i in events && i != id ==> Cells(events[i]) !! Cells(e)
    ensures AllApart(events[id := e])
  {
  }

  class PointerDataStates {
    var Events: map<string, EventStruct>
    var DataCount: uint16

    constructor ()
      ensures Valid() && Events == map[] && DataCount == 0
    {
      Events, DataCount := map[], 0;
    }

    ghost predicate Valid()
      reads this
    {
      AllApart(Events)
    }

    /** The queued event's own cells. */
    ghost function Target(id: string): set<Cell>
      reads this
    {
      if id in Events then Cells(Events[id]) else {}
    }

    /** The added event may share its flags with the event queued under its id, as when a handler adds it again. */
    ghost predicate MayAdd(e: EventStruct)
      reads this
    {
      && Apart(e)
      && (forall id :: id in Events && id != e.fields.id ==> Cells(Events[id]) !! Cells(e))
      && (e.fields.id in Events ==> e.synced == null || e.synced != Events[e.fields.id].isValid)
    }

    predicate Queued(id: string)
      reads this
    {
      id in Events && Events[id].fields.id != ""
    }

    /**
     * AddEvent for any sharing of flags. A first add shares the caller's pointers. An update writes through the queued
     * event's own flags and no others; it reads as the overlay unless the event's Synced is the queued one's IsValid or
     * the queued one's flags are one.
     */
    method AddEvent(e: EventStruct) returns (panics: bool)
      modifies this, Target(e.fields.id)
      ensures old(Valid() && MayAdd(e)) ==> Valid()
      ensures panics <==> !old(Queued(e.fields.id)) && !e.fields.signed
      ensures panics ==> Events == old(Events) && DataCount == old(DataCount)
      ensures !panics ==> e.fields.id in Events && Events == old(Events)[e.fields.id := Events[e.fields.id]]
      ensures !panics && !old(Queued(e.fields.id)) ==>
        && DataCount == Increment(old(DataCount)) && Deref(Events[e.fields.id]) == Marked(old(Deref(e)))
        && (e.fields.error == "" ==> Events[e.fields.id] == e)
      ensures old(Queued(e.fields.id)) ==>
        DataCount == old(DataCount) && KeepsPointers(Events[e.fields.id], old(Events[e.fields.id]))
      ensures old(Queued(e.fields.id)) && Separate(e, old(Events)[e.fields.id]) ==>
        Deref(Events[e.fields.id]) == Overlay(Marked(old(Deref(e))), old(Deref(Events[e.fields.id])))
    {
      var event := MarkError(e);
      if event.fields.id !in Events || Events[event.fields.id].fields.id == "" {
        if !event.fields.signed {
          return true;
        }
        Queue(event);
      } else {
        Update(event);
      }
      return false;
    }

    method Queue(event: EventStruct)
      modifies this
      ensures old(Valid() && MayAdd(event)) ==> Valid()
      ensures Events == old(Events)[event.fields.id := event] && DataCount == Increment(old(DataCount))
    {
      if Valid() && MayAdd(event) {
        PutApart(Events, event.fields.id, event);
      }
      Events := Events[event.fields.id := event];
      DataCount := Increment(DataCount);
    }

    method Update(event: EventStruct)
      requires event.fields.id in Events
      modifies `Events, Target(event.fields.id)
      ensures old(Valid()) ==> Valid()
      ensures event.fields.id in Events && Events == old(Events)[event.fields.id := Events[event.fields.id]]
      ensures Separate(event, old(Events)[event.fields.id]) ==>
        Deref(Events[event.fields.id]) == Overlay(old(Deref(event)), old(Deref(Events[event.fields.id])))
      ensures KeepsPointers(Events[event.fields.id], old(Events[event.fields.id]))
    {
      var s := Events[event.fields.id];
      s := UpdateStruct(event, s);
      if old(Valid()) {
        assert forall i :: i in Events && i != event.fields.id ==> Cells(Events[i]) !! Cells(s);
        PutApart(Events, event.fields.id, s);
      }
      Events := Events[event.fields.id := s];
    }
  }
}
