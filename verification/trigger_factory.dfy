/**
 * The two trigger factories of the messages manager (one for API
 * dictionaries, keyed by a type string, one for stored records, keyed by the
 * raw type) and the dispatch of encoding and validity over the variants.
 */
module TriggerFactory {
  import opened Wrappers
  import opened Clock
  import opened Json
  import opened Triggers
  import opened Audience
  import opened EventTriggers
  import opened ViewTriggers
  import opened TagChangeTriggers
  import opened LocationTriggers
  import opened AppOpeningTriggers
  import opened InactiveUserTriggers

  /** The variant an API type string names, if any. */
  function ApiType(s: string): (r: Option<TriggerType>)
    ensures r.Some? ==> r.value != UnknownType
    ensures r.None? <==> s !in {"location", "app_opening", "view", "inactive_user", "event", "tag_change"}
  {
    if s == "location" then Some(LocationType)
    else if s == "app_opening" then Some(AppOpeningType)
    else if s == "view" then Some(ViewType)
    else if s == "inactive_user" then Some(InactiveUserType)
    else if s == "event" then Some(EventType)
    else if s == "tag_change" then Some(TagChangeType)
    else None
  }

  /** `MBAutomationMessagesManager.trigger(forDictionary:)` */
  function TriggerFromApi(d: Dict): (t: Trigger)
    ensures WellFormed(t)
    ensures ApiType(StringAt(d, "type").GetOr("")).Some? ==> t.Type() == ApiType(StringAt(d, "type").GetOr("")).value
    ensures ApiType(StringAt(d, "type").GetOr("")).None? ==> t == BaseFromApi(d)
    ensures t.id == RecordId(d)
  {
    match ApiType(StringAt(d, "type").GetOr(""))
    case Some(LocationType) => LocationFromApi(d)
    case Some(AppOpeningType) => AppOpeningFromApi(d)
    case Some(ViewType) => ViewFromApi(d)
    case Some(InactiveUserType) => InactiveUserFromApi(d)
    case Some(EventType) => EventFromApi(d)
    case Some(TagChangeType) => TagChangeFromApi(d)
    case _ => BaseFromApi(d)
  }

  /** `MBAutomationMessagesManager.trigger(fromJsonDictionary:)` */
  function TriggerFromRecord(d: Dict): (t: Trigger)
    ensures WellFormed(t)
    ensures t.Type() == RecordType(d)
    ensures t.id == RecordId(d)
  {
    match RecordType(d)
    case LocationType => LocationFromRecord(d)
    case AppOpeningType => AppOpeningFromRecord(d)
    case ViewType => ViewFromRecord(d)
    case InactiveUserType => InactiveUserFromRecord(d)
    case EventType => EventFromRecord(d)
    case TagChangeType => TagChangeFromRecord(d)
    case UnknownType => BaseFromRecord(d)
  }

  /** `toJsonDictionary()`, dispatched on the variant. */
  function TriggerToRecord(t: Trigger): (d: Dict)
    ensures "id" in d && d["id"] == JString(t.id)
  {
    match t
    case Base(_, _) => BaseRecord(t)
    case AppOpening(_, _) => AppOpeningToRecord(t)
    case View(_, _, _, _, _, _) => ViewToRecord(t)
    case Event(_, _, _, _, _, _) => EventToRecord(t)
    case Location(_, _, _, _, _, _, _, _) => LocationToRecord(t)
    case InactiveUser(_, _) => InactiveUserToRecord(t)
    case TagChange(_, _, _, _, _) => TagChangeToRecord(t)
  }

  /** Every trigger a factory can build is stored and read back unchanged. */
  lemma TriggerRoundTrip(t: Trigger)
    requires WellFormed(t)
    ensures TriggerFromRecord(TriggerToRecord(t)) == t
  {
    match t
    case Base(_, _) => BaseRoundTrip(t);
    case AppOpening(_, _) => AppOpeningRoundTrip(t);
    case View(_, _, _, _, _, _) => ViewRoundTrip(t);
    case Event(_, _, _, _, _, _) => EventRoundTrip(t);
    case Location(_, _, _, _, _, _, _, _) => LocationRoundTrip(t);
    case InactiveUser(_, _) => InactiveUserRoundTrip(t);
    case TagChange(_, _, _, _, _) => TagChangeRoundTrip(t);
  }

  /** The inputs of `isValid(fromAppStartup:)`: the clock, the startup flag and the audience's sessions. */
  datatype Context = Context(now: Time, fromStartup: bool, sessions: Sessions)

  /** `isValid(fromAppStartup:)`, dispatched on the variant. */
  predicate TriggerIsValid(t: Trigger, ctx: Context)
  {
    match t
    case Base(_, _) => BaseIsValid(t, ctx.fromStartup)
    case AppOpening(_, _) => AppOpeningIsValid(t, ctx.fromStartup, ctx.sessions)
    case View(_, _, _, _, _, _) => ViewIsValid(t, ctx.now)
    case Event(_, _, _, _, _, _) => EventIsValid(t, ctx.now)
    case Location(_, _, _, _, _, _, _, _) => LocationIsValid(t)
    case InactiveUser(_, _) => InactiveUserIsValid(t, ctx.fromStartup, ctx.sessions)
    case TagChange(_, _, _, _, _) => TagChangeIsValid(t, ctx.now)
  }

  /** Outside startup only triggers with a completion date (or an unfired location trigger) can be valid. */
  lemma ValidOutsideStartup(t: Trigger, ctx: Context)
    requires !ctx.fromStartup && TriggerIsValid(t, ctx)
    ensures t.View? || t.Event? || t.Location? || t.TagChange?
  {
  }
}
