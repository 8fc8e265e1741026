/**
 * The two kinds of telemetry record: a screen view and a custom event. A
 * record made by the app has no id yet; one read back from the queue carries
 * the row id the queue gave it.
 */
module TrackingModels {
  import opened Wrappers
  import opened Clock
  import opened Json

  datatype AutomationView = AutomationView(id: Option<int>, view: string, metadata: Option<Dict>, timestamp: Time)

  datatype AutomationEvent = AutomationEvent(
    id: Option<int>, event: string, name: Option<string>, metadata: Option<Dict>, timestamp: Time)

  /** `MBAutomationView(view:metadata:)`, created at time `now`. */
  function NewView(view: string, metadata: Option<Dict>, now: Time): (v: AutomationView)
    ensures v.id.None? && v.timestamp == now
    ensures v.view == view && v.metadata == metadata
  {
    AutomationView(None, view, metadata, now)
  }

  /** `MBAutomationView(id:view:metadata:timestamp:)`, a row read back from the queue. */
  function LoadedView(id: int, view: string, metadata: Option<Dict>, timestamp: real): (v: AutomationView)
    ensures v.id == Some(id) && v.timestamp == DateFromSeconds(timestamp)
    ensures v.view == view && v.metadata == metadata
  {
    AutomationView(Some(id), view, metadata, DateFromSeconds(timestamp))
  }

  /** `MBAutomationEvent(event:name:metadata:)`, created at time `now`. */
  function NewEvent(event: string, name: Option<string>, metadata: Option<Dict>, now: Time): (e: AutomationEvent)
    ensures e.id.None? && e.timestamp == now
    ensures e.event == event && e.name == name && e.metadata == metadata
  {
    AutomationEvent(None, event, name, metadata, now)
  }

  /** `MBAutomationEvent(id:event:name:metadata:timestamp:)`, a row read back from the queue. */
  function LoadedEvent(id: int, event: string, name: Option<string>, metadata: Option<Dict>, timestamp: real): (e: AutomationEvent)
    ensures e.id == Some(id) && e.timestamp == DateFromSeconds(timestamp)
    ensures e.event == event && e.name == name && e.metadata == metadata
  {
    AutomationEvent(Some(id), event, name, metadata, DateFromSeconds(timestamp))
  }

  /**
   * The metadata entry of an API dictionary: the JSON text of the metadata,
   * when there is metadata and serialisation accepts it.
   */
  function MetadataEntry(metadata: Option<Dict>): Dict
  {
    if metadata.Some? && SerialisableDict(metadata.value)
    then map["metadata" := JSerialized(JObject(metadata.value))]
    else map[]
  }

  /** `MBAutomationView.apiDictionary()` */
  function ViewApiDictionary(v: AutomationView): (d: Dict)
    ensures d.Keys == {"view", "timestamp"} + (if "metadata" in d then {"metadata"} else {})
    ensures d["view"] == JString(v.view)
    ensures d["timestamp"] == JInt(TruncatedSeconds(v.timestamp))
    ensures "metadata" in d <==> v.metadata.Some? && SerialisableDict(v.metadata.value)
    ensures "metadata" in d ==> d["metadata"] == JSerialized(JObject(v.metadata.value))
  {
    map["view" := JString(v.view), "timestamp" := JInt(TruncatedSeconds(v.timestamp))] + MetadataEntry(v.metadata)
  }

  /** `MBAutomationEvent.apiDictionary()` */
  function EventApiDictionary(e: AutomationEvent): (d: Dict)
    ensures d.Keys == {"event", "timestamp"} + (if "name" in d then {"name"} else {})
                                              + (if "metadata" in d then {"metadata"} else {})
    ensures d["event"] == JString(e.event)
    ensures d["timestamp"] == JInt(TruncatedSeconds(e.timestamp))
    ensures "name" in d <==> e.name.Some?
    ensures "name" in d ==> d["name"] == JString(e.name.value)
    ensures "metadata" in d <==> e.metadata.Some? && SerialisableDict(e.metadata.value)
    ensures "metadata" in d ==> d["metadata"] == JSerialized(JObject(e.metadata.value))
  {
    var base := map["event" := JString(e.event), "timestamp" := JInt(TruncatedSeconds(e.timestamp))];
    var named := if e.name.Some? then base["name" := JString(e.name.value)] else base;
    named + MetadataEntry(e.metadata)
  }

  /** The API timestamp is the record's time in whole seconds, truncated toward zero. */
  lemma ApiTimestampTruncates(t: Time)
    ensures t >= 0 ==> 0 <= t - TruncatedSeconds(t) * 1000 < 1000
    ensures t < 0 ==> -1000 < t - TruncatedSeconds(t) * 1000 <= 0
  {
  }
}
