/** The records that events carry and nodes store. */
module Entities {
  import opened Wrappers

  type uint64 = n: int | 0 <= n < 0x1_0000_0000_0000_0000
  type uint16 = n: int | 0 <= n < 0x1_0000

  /** int(x) on a 64-bit machine. */
  function ToInt(n: uint64): int {
    if n < 0x8000_0000_0000_0000 then n else n - 0x1_0000_0000_0000_0000
  }

  datatype Model = NoModel | AuthModel | TopicModel | SubscriptionModel | MessageModel | SubnetModel | WalletModel

  function GetModelTypeFromEventType(eventType: uint16): Model {
    if eventType < 600 then SubnetModel
    else if eventType < 700 then AuthModel
    else if eventType < 1100 then TopicModel
    else if eventType < 1200 then SubscriptionModel
    else if eventType < 1300 then MessageModel
    else if eventType < 1500 then WalletModel
    else NoModel
  }

  const CREATE_SUBNET_EVENT: uint16 := 501
  const UPDATE_SUBNET_EVENT: uint16 := 509
  const MEMBER_PRIVILEDGE := 20

  /** EntityPath as a map key: the code that builds keys leaves validator and index empty. */
  datatype Path = Path(model: Model, id: string)

  /** A subnet or a topic: its id, the event it came from, a subnet's default privilege, and everything else. */
  datatype Entity = Entity(id: string, eventId: string, timestamp: uint64, privilege: Option<nat>, content: string)

  /** Priviledge and Timestamp are pointers in the source; None is nil. */
  datatype Authorization = Authorization(
    id: string, eventId: string, priviledge: Option<nat>, timestamp: Option<uint64>)

  const NO_AUTHORIZATION := Authorization("", "", None, None)

  datatype Payload = Payload(data: Entity, timestamp: uint64, account: string, agent: string, subnet: string)

  const NO_PAYLOAD := Payload(Entity("", "", 0, None, ""), 0, "", "", "")
  const NO_PATH := Path(NoModel, "")

  /** An event. `signed` says that its signature is present and encodes the event's id. */
  datatype Event = Event(
    id: string, payload: Payload, timestamp: uint64, eventType: uint16,
    previousEvent: Path, authEvent: Path, error: string, hash: string, signed: bool,
    isValid: Option<bool>, synced: Option<bool>, validator: string)

  /** entities.Event{ID: id, Error: error, IsValid: &isValid, Synced: &true} */
  function Mark(id: string, error: string, isValid: bool): Event {
    Event(id, NO_PAYLOAD, 0, 0, NO_PATH, NO_PATH, error, "", false, Some(isValid), Some(true), "")
  }

  /** UpdateStruct on one field: a zero source field leaves the destination alone. */
  function Field<T(==)>(src: T, zero: T, dst: T): T {
    if src == zero then dst else src
  }

  /** UpdateStruct on events. */
  function Overlay(src: Event, dst: Event): Event {
    Event(
      Field(src.id, "", dst.id), Field(src.payload, NO_PAYLOAD, dst.payload),
      Field(src.timestamp, 0, dst.timestamp), Field(src.eventType, 0, dst.eventType),
      Field(src.previousEvent, NO_PATH, dst.previousEvent), Field(src.authEvent, NO_PATH, dst.authEvent),
      Field(src.error, "", dst.error), Field(src.hash, "", dst.hash), src.signed || dst.signed,
      Field(src.isValid, None, dst.isValid), Field(src.synced, None, dst.synced),
      Field(src.validator, "", dst.validator))
  }

  /** UpdateStruct on authorizations. */
  function OverlayAuthorization(src: Authorization, dst: Authorization): Authorization {
    Authorization(Field(src.id, "", dst.id), Field(src.eventId, "", dst.eventId),
                  Field(src.priviledge, None, dst.priviledge), Field(src.timestamp, None, dst.timestamp))
  }

  /** What a field reads after an update: the source's value, unless that is zero. */
  predicate Wins<T(==)>(result: T, src: T, zero: T, dst: T) {
    (src != zero ==> result == src) && (src == zero ==> result == dst)
  }

  /** An event after an update, field by field. */
  predicate Updates(result: Event, src: Event, dst: Event) {
    && Wins(result.id, src.id, "", dst.id) && Wins(result.payload, src.payload, NO_PAYLOAD, dst.payload)
    && Wins(result.timestamp, src.timestamp, 0, dst.timestamp)
    && Wins(result.eventType, src.eventType, 0, dst.eventType)
    && Wins(result.previousEvent, src.previousEvent, NO_PATH, dst.previousEvent)
    && Wins(result.authEvent, src.authEvent, NO_PATH, dst.authEvent)
    && Wins(result.error, src.error, "", dst.error) && Wins(result.hash, src.hash, "", dst.hash)
    && Wins(result.signed, src.signed, false, dst.signed)
    && Wins(result.isValid, src.isValid, None, dst.isValid) && Wins(result.synced, src.synced, None, dst.synced)
    && Wins(result.validator, src.validator, "", dst.validator)
  }

  /** An authorization after an update, field by field. */
  predicate UpdatesAuthorization(result: Authorization, src: Authorization, dst: Authorization) {
    && Wins(result.id, src.id, "", dst.id) && Wins(result.eventId, src.eventId, "", dst.eventId)
    && Wins(result.priviledge, src.priviledge, None, dst.priviledge)
    && Wins(result.timestamp, src.timestamp, None, dst.timestamp)
  }

  const ZERO_EVENT := Event("", NO_PAYLOAD, 0, 0, NO_PATH, NO_PATH, "", "", false, None, None, "")

  /** The overlay is the only event that an update can leave, and the zero event changes none and is filled by any. */
  lemma OverlayUpdates(src: Event, dst: Event, result: Event)
    ensures Updates(result, src, dst) <==> result == Overlay(src, dst)
    ensures Overlay(ZERO_EVENT, dst) == dst && Overlay(src, ZERO_EVENT) == src
  {
    if Updates(result, src, dst) {
      assert result.signed == Overlay(src, dst).signed;
    }
  }

  /** Overlaying is associative and idempotent, so a fold of overlays does not depend on its grouping. */
  lemma OverlayLaws(a: Event, b: Event, c: Event)
    ensures Overlay(a, Overlay(b, c)) == Overlay(Overlay(a, b), c)
    ensures Overlay(a, Overlay(a, b)) == Overlay(a, b)
  {
  }
}
