/**
 * The trigger variants a message can carry, and what they share: an id, a
 * type with a fixed integer raw value, and the `id`/`type` entries of the
 * stored record. A trigger that the factories do not recognise is a base
 * trigger, which is never valid.
 */
module Triggers {
  import opened Wrappers
  import opened Clock
  import opened Json
  import opened JsonDates

  datatype TriggerType =
    | LocationType
    | AppOpeningType
    | ViewType
    | InactiveUserType
    | EventType
    | TagChangeType
    | UnknownType

  /** `MBTriggerType.rawValue` */
  function TypeRaw(t: TriggerType): (r: int)
    ensures 0 <= r <= 6
    ensures t == UnknownType <==> r == 6
  {
    match t
    case LocationType => 0
    case AppOpeningType => 1
    case ViewType => 2
    case InactiveUserType => 3
    case EventType => 4
    case TagChangeType => 5
    case UnknownType => 6
  }

  /** `MBTriggerType(rawValue:)`: defined exactly on 0..6, and the inverse of `TypeRaw`. */
  function TypeFromRaw(raw: int): (r: Option<TriggerType>)
    ensures r.Some? <==> 0 <= raw <= 6
    ensures r.Some? ==> TypeRaw(r.value) == raw
  {
    if raw == 0 then Some(LocationType)
    else if raw == 1 then Some(AppOpeningType)
    else if raw == 2 then Some(ViewType)
    else if raw == 3 then Some(InactiveUserType)
    else if raw == 4 then Some(EventType)
    else if raw == 5 then Some(TagChangeType)
    else if raw == 6 then Some(UnknownType)
    else None
  }

  lemma TypeRawInjective(a: TriggerType, b: TriggerType)
    ensures TypeRaw(a) == TypeRaw(b) ==> a == b
  {
  }

  /** `LocationTriggerAction` */
  datatype LocationAction = Enter | Exit

  /** `MBTagChangeOperator` */
  datatype TagOperator = Equal | NotEqual

  /** A trigger; the mutable properties of the variants (`completionDate`, `numberOfTimes`) are fields updated by the step functions. */
  datatype Trigger =
    | Base(id: string, baseType: TriggerType)
    | AppOpening(id: string, times: int)
    | View(id: string, view: string, times: int, secondsOnView: real,
           completionDate: Option<Time>, numberOfTimes: Option<int>)
    | Event(id: string, event: string, times: int, metadata: Option<Dict>,
            completionDate: Option<Time>, numberOfTimes: Option<int>)
    | Location(id: string, address: string, latitude: real, longitude: real, radius: real,
               after: real, action: LocationAction, completionDate: Option<Time>)
    | InactiveUser(id: string, days: int)
    | TagChange(id: string, tag: string, value: string, op: TagOperator, completionDate: Option<Time>)
  {
    /** The `type` property. */
    function Type(): TriggerType
    {
      match this
      case Base(_, t) => t
      case AppOpening(_, _) => AppOpeningType
      case View(_, _, _, _, _, _) => ViewType
      case Event(_, _, _, _, _, _) => EventType
      case Location(_, _, _, _, _, _, _, _) => LocationType
      case InactiveUser(_, _) => InactiveUserType
      case TagChange(_, _, _, _, _) => TagChangeType
    }
  }

  /**
   * A trigger the factories can produce: a base trigger built by them
   * always has the unknown type.
   */
  predicate WellFormed(t: Trigger)
  {
    t.Base? ==> t.baseType == UnknownType
  }

  /** `completionDate >= Date()`, the validity of event, view and tag-change triggers. */
  predicate CompletedNotBefore(completionDate: Option<Time>, now: Time)
  {
    completionDate.Some? && completionDate.value >= now
  }

  /** A completion date passes the check at most until the moment it records. */
  lemma CompletionValidUntil(completionDate: Option<Time>, now: Time)
    ensures CompletedNotBefore(completionDate, now) <==> completionDate.Some? && now <= completionDate.value
  {
  }

  // ----------------------------------------------------------- base trigger

  /** `MBTrigger(dictionary:)`: keeps only the id, and the type is unknown. */
  function BaseFromApi(d: Dict): (t: Trigger)
    ensures t.Base? && t.baseType == UnknownType && WellFormed(t)
    ensures StringAt(d, "id").Some? ==> t.id == StringAt(d, "id").value
    ensures StringAt(d, "id").None? ==> t.id == ""
  {
    Base(StringAt(d, "id").GetOr(""), UnknownType)
  }

  /** `MBTrigger.isValid(fromAppStartup:)` */
  predicate BaseIsValid(t: Trigger, fromStartup: bool)
    requires t.Base?
  {
    false
  }

  /** The base trigger is never valid, whatever `fromAppStartup` is. */
  lemma BaseNeverValid(t: Trigger)
    requires t.Base?
    ensures !BaseIsValid(t, true) && !BaseIsValid(t, false)
  {
  }

  /** The fields every stored trigger starts from: its id and its raw type. */
  function BaseFields(id: string, kind: TriggerType): map<string, Option<JValue>>
  {
    map["id" := Some(JString(id)), "type" := Some(JInt(TypeRaw(kind)))]
  }

  /** `MBTrigger.toJsonDictionary()`: exactly the id and the raw type. */
  function BaseRecord(t: Trigger): (d: Dict)
    ensures d.Keys == {"id", "type"}
    ensures d["id"] == JString(t.id) && d["type"] == JInt(TypeRaw(t.Type()))
  {
    Record(BaseFields(t.id, t.Type()))
  }

  /** The type a stored record names: a missing or out-of-range raw value is unknown. */
  function RecordType(d: Dict): (t: TriggerType)
    ensures IntAt(d, "type").Some? && 0 <= IntAt(d, "type").value <= 6 ==> TypeRaw(t) == IntAt(d, "type").value
    ensures IntAt(d, "type").None? || !(0 <= IntAt(d, "type").value <= 6) ==> t == UnknownType
  {
    TypeFromRaw(IntAt(d, "type").GetOr(TypeRaw(UnknownType))).GetOr(UnknownType)
  }

  /** The id a stored or API record names, "" when missing. */
  function RecordId(d: Dict): (id: string)
    ensures StringAt(d, "id").Some? ==> id == StringAt(d, "id").value
    ensures StringAt(d, "id").None? ==> id == ""
  {
    StringAt(d, "id").GetOr("")
  }

  /** `MBTrigger(fromJsonDictionary:)` */
  function BaseFromRecord(d: Dict): (t: Trigger)
    ensures t.Base? && t.id == RecordId(d) && t.baseType == RecordType(d)
  {
    Base(RecordId(d), RecordType(d))
  }

  /** A stored base trigger reads back as itself. */
  lemma BaseRoundTrip(t: Trigger)
    requires t.Base?
    ensures BaseFromRecord(BaseRecord(t)) == t
  {
    var d := BaseRecord(t);
    assert IntAt(d, "type") == Some(TypeRaw(t.baseType));
    TypeRawInjective(RecordType(d), t.baseType);
  }
}
