/**
 * A location trigger: completes when the device enters, or leaves, a circular
 * region. Containment in the region is geometry the model does not compute:
 * it is the parameter `inside`.
 */
module LocationTriggers {
  import opened Wrappers
  import opened Clock
  import opened Json
  import opened JsonDates
  import opened Triggers

  datatype Point = Point(latitude: real, longitude: real)

  /** `CLCircularRegion`: an identifier, a centre and a radius in metres. */
  datatype Region = Region(identifier: string, center: Point, radius: real)

  /** The prefix of every trigger region's identifier. */
  const RegionPrefix: string := "com.mumble.mburger.automation.trigger.region"

  /** `LocationTriggerAction.tirgger(forActionString:)`: "exit" is exit, anything else is enter. */
  function ActionFromString(s: string): (a: LocationAction)
    ensures a == Exit <==> s == "exit"
  {
    if s == "enter" then Enter
    else if s == "exit" then Exit
    else Enter
  }

  /** `LocationTriggerAction.rawValue` */
  function ActionRaw(a: LocationAction): int
  {
    match a
    case Enter => 0
    case Exit => 1
  }

  /** `LocationTriggerAction(rawValue:) ?? .enter` */
  function ActionFromRaw(raw: int): (a: LocationAction)
    ensures a == Exit <==> raw == 1
    ensures ActionRaw(a) == raw || (raw != 0 && raw != 1 && a == Enter)
  {
    if raw == 1 then Exit else Enter
  }

  /** `MBLocationTrigger(dictionary:)`; a missing action is "enter". */
  function LocationFromApi(d: Dict): (t: Trigger)
    ensures t.Location? && t.id == RecordId(d) && t.completionDate.None?
    ensures t.address == StringAt(d, "address").GetOr("")
    ensures t.latitude == NumberAt(d, "latitude").GetOr(0.0)
    ensures t.longitude == NumberAt(d, "longitude").GetOr(0.0)
    ensures t.radius == NumberAt(d, "radius").GetOr(0.0)
    ensures t.after == NumberAt(d, "after").GetOr(0.0)
    ensures t.action == Exit <==> StringAt(d, "action") == Some("exit")
  {
    Location(RecordId(d), StringAt(d, "address").GetOr(""),
             NumberAt(d, "latitude").GetOr(0.0), NumberAt(d, "longitude").GetOr(0.0),
             NumberAt(d, "radius").GetOr(0.0), NumberAt(d, "after").GetOr(0.0),
             ActionFromString(StringAt(d, "action").GetOr("enter")), None)
  }

  /** `region()`: the centre takes the trigger's latitude for both coordinates. */
  function TriggerRegion(t: Trigger): (r: Region)
    requires t.Location?
    ensures r.center.latitude == t.latitude && r.center.longitude == t.latitude
    ensures r.radius == t.radius
    ensures r.identifier == RegionPrefix + t.id
  {
    Region(RegionPrefix + t.id, Point(t.latitude, t.latitude), t.radius)
  }

  /** The region ignores the trigger's longitude: two triggers that differ only there share a region. */
  lemma RegionIgnoresLongitude(t: Trigger, longitude: real)
    requires t.Location?
    ensures TriggerRegion(t) == TriggerRegion(t.(longitude := longitude))
  {
  }

  /** Whether a move from `last` to `location` satisfies the trigger's action. */
  predicate Satisfied(t: Trigger, location: Point, last: Option<Point>, inside: (Region, Point) -> bool)
    requires t.Location?
  {
    var region := TriggerRegion(t);
    var isInside := inside(region, location);
    match last
    case None => t.action == Enter && isInside
    case Some(p) =>
      if t.action == Enter && isInside then inside(region, p)
      else if t.action == Exit && !isInside then !inside(region, p)
      else false
  }

  /** The trigger with its completion date set to `date`. */
  function WithCompletion(t: Trigger, date: Time): (r: Trigger)
    requires t.Location?
  {
    Location(t.id, t.address, t.latitude, t.longitude, t.radius, t.after, t.action, Some(date))
  }

  /** `locationDataUpdated(location:lastLocation:)` at time `now`. */
  function LocationDataUpdated(t: Trigger, location: Point, last: Option<Point>, now: Time,
                               inside: (Region, Point) -> bool): (r: (Trigger, bool))
    requires t.Location?
    ensures r.0.Location?
    ensures t.completionDate.Some? ==> r == (t, false)
    ensures !Satisfied(t, location, last, inside) ==> r == (t, false)
    ensures t.completionDate.None? && Satisfied(t, location, last, inside) && t.after == 0.0 ==>
              r == (WithCompletion(t, now), true)
    ensures t.completionDate.None? && Satisfied(t, location, last, inside) && t.after != 0.0 ==>
              r == (WithCompletion(t, AddInterval(now, t.after)), false)
  {
    if t.completionDate.Some? then (t, false)
    else if Satisfied(t, location, last, inside) then
      if t.after == 0.0 then (WithCompletion(t, now), true)
      else (WithCompletion(t, AddInterval(now, t.after)), false)
    else (t, false)
  }

  /** With no last location, the trigger fires exactly for an enter action and a point inside. */
  lemma FirstFixSatisfies(t: Trigger, location: Point, inside: (Region, Point) -> bool)
    requires t.Location?
    ensures Satisfied(t, location, None, inside) <==> t.action == Enter && inside(TriggerRegion(t), location)
  {
  }

  /**
   * With a last location, an enter trigger is satisfied by a move that stays
   * inside the region, and an exit trigger by one that stays outside: a
   * crossing of the boundary satisfies neither.
   */
  lemma StayingSatisfies(t: Trigger, location: Point, last: Point, inside: (Region, Point) -> bool)
    requires t.Location?
    ensures var region := TriggerRegion(t);
      Satisfied(t, location, Some(last), inside) <==>
        (t.action == Enter && inside(region, location) && inside(region, last)) ||
        (t.action == Exit && !inside(region, location) && !inside(region, last))
  {
  }

  /** `MBLocationTrigger.isValid(fromAppStartup:)`: valid while the trigger has not completed. */
  predicate LocationIsValid(t: Trigger)
    requires t.Location?
  {
    t.completionDate.None?
  }

  /** An update that satisfies the trigger leaves it invalid, whatever the delay. */
  lemma SatisfiedInvalidates(t: Trigger, location: Point, last: Option<Point>, now: Time,
                             inside: (Region, Point) -> bool)
    requires t.Location? && LocationIsValid(t) && Satisfied(t, location, last, inside)
    ensures !LocationIsValid(LocationDataUpdated(t, location, last, now, inside).0)
  {
  }

  /** The fields a stored Location trigger writes, absent ones as `None`. */
  function LocationFields(t: Trigger): map<string, Option<JValue>>
    requires t.Location?
  {
    BaseFields(t.id, LocationType)["address" := Some(JString(t.address))]
                 ["latitude" := Some(JReal(t.latitude))]["longitude" := Some(JReal(t.longitude))]
                 ["radius" := Some(JReal(t.radius))]["after" := Some(JReal(t.after))]
                 ["action" := Some(JInt(ActionRaw(t.action)))]["completionDate" := OptDate(t.completionDate)]
  }

  /** `MBLocationTrigger.toJsonDictionary()` */
  function LocationToRecord(t: Trigger): (d: Dict)
    requires t.Location?
    ensures RecordType(d) == LocationType
  {
    Record(LocationFields(t))
  }

  /** `MBLocationTrigger(fromJsonDictionary:)` */
  function LocationFromRecord(d: Dict): (t: Trigger)
    ensures t.Location? && t.id == RecordId(d)
    ensures IntAt(d, "action").None? ==> t.action == Enter
  {
    Location(RecordId(d), StringAt(d, "address").GetOr(""),
             NumberAt(d, "latitude").GetOr(0.0), NumberAt(d, "longitude").GetOr(0.0),
             NumberAt(d, "radius").GetOr(0.0), NumberAt(d, "after").GetOr(0.0),
             ActionFromRaw(IntAt(d, "action").GetOr(0)), DateAt(d, "completionDate"))
  }

  /** The stored record of a location trigger reads back as the same trigger. */
  lemma LocationRoundTrip(t: Trigger)
    requires t.Location?
    ensures LocationFromRecord(LocationToRecord(t)) == t
  {
    var f := LocationFields(t);
    RecordRead(f, "id");
    RecordRead(f, "address");
    RecordRead(f, "latitude");
    RecordRead(f, "longitude");
    RecordRead(f, "radius");
    RecordRead(f, "after");
    RecordRead(f, "action");
    RecordRead(f, "completionDate");
  }
}
