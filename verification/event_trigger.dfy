/** An event trigger: completes once a named event, with matching metadata, has happened `times` times. */
module EventTriggers {
  import opened Wrappers
  import opened Clock
  import opened Json
  import opened JsonDates
  import opened Triggers
  import opened TrackingModels

  /** `MBEventTrigger(dictionary:)` */
  function EventFromApi(d: Dict): (t: Trigger)
    ensures t.Event? && t.id == RecordId(d)
    ensures t.event == StringAt(d, "event_name").GetOr("")
    ensures t.times == IntAt(d, "times").GetOr(1)
    ensures t.metadata == DictAt(d, "metadata")
    ensures t.completionDate.None? && t.numberOfTimes.None?
  {
    Event(RecordId(d), StringAt(d, "event_name").GetOr(""), IntAt(d, "times").GetOr(1),
          DictAt(d, "metadata"), None, None)
  }

  /** Whether an event counts for the trigger: same name, and no metadata or the same metadata. */
  predicate Counts(t: Trigger, e: AutomationEvent)
    requires t.Event?
  {
    e.event == t.event && (e.metadata.None? || (t.metadata.Some? && e.metadata.value == t.metadata.value))
  }

  /** `eventHappened(event:)` at time `now`: the updated trigger and whether it changed. */
  function EventHappened(t: Trigger, e: AutomationEvent, now: Time): (r: (Trigger, bool))
    requires t.Event?
    ensures r.0.Event?
    ensures e.event != t.event ==> r == (t, false)
    ensures e.event == t.event && e.metadata.None? ==> r.1
    ensures e.metadata.Some? && t.metadata.None? ==> r == (t, false)
    ensures e.event == t.event && e.metadata.Some? && t.metadata.Some? ==> (r.1 <==> e.metadata.value == t.metadata.value)
    ensures !r.1 ==> r.0 == t
    ensures r.1 ==> r.0.numberOfTimes == Some(t.numberOfTimes.GetOr(0) + 1)
    ensures r.1 ==> (r.0.completionDate == Some(now) <==> t.numberOfTimes.GetOr(0) + 1 >= t.times || t.completionDate == Some(now))
    ensures r.1 && t.numberOfTimes.GetOr(0) + 1 < t.times ==> r.0.completionDate == t.completionDate
    ensures SameEvent(r.0, t)
  {
    if Counts(t, e) then
      var count := match t.numberOfTimes { case Some(n) => n + 1 case None => 1 };
      var completion := if count >= t.times then Some(now) else t.completionDate;
      (Event(t.id, t.event, t.times, t.metadata, completion, Some(count)), true)
    else (t, false)
  }

  /** Two event triggers that differ at most in their count and completion date. */
  predicate SameEvent(a: Trigger, b: Trigger)
    requires a.Event? && b.Event?
  {
    a.id == b.id && a.event == b.event && a.times == b.times && a.metadata == b.metadata
  }

  /** `MBEventTrigger.isValid(fromAppStartup:)` */
  predicate EventIsValid(t: Trigger, now: Time)
    requires t.Event?
  {
    CompletedNotBefore(t.completionDate, now)
  }

  /**
   * The event that makes the count reach `times` makes the trigger valid at
   * that instant, and only until then: it is invalid at any later time.
   */
  lemma EventCompletionWindow(t: Trigger, e: AutomationEvent, now: Time, later: Time)
    requires t.Event? && Counts(t, e) && t.numberOfTimes.GetOr(0) + 1 >= t.times
    requires later > now
    ensures EventIsValid(EventHappened(t, e, now).0, now)
    ensures !EventIsValid(EventHappened(t, e, now).0, later)
  {
  }

  /** Applies the same event `k` times. */
  function Repeat(t: Trigger, e: AutomationEvent, now: Time, k: nat): (r: Trigger)
    requires t.Event?
    ensures r.Event?
  {
    if k == 0 then t else EventHappened(Repeat(t, e, now, k - 1), e, now).0
  }

  /**
   * From a fresh trigger, `k` counted events give a count of `k`, and the
   * trigger has a completion date exactly when `k` reached `times`.
   */
  lemma {:induction false} RepeatCounts(t: Trigger, e: AutomationEvent, now: Time, k: nat)
    requires t.Event? && Counts(t, e) && t.numberOfTimes.None? && t.completionDate.None?
    ensures Repeat(t, e, now, k).numberOfTimes == (if k == 0 then None else Some(k))
    ensures Repeat(t, e, now, k).completionDate.Some? <==> k > 0 && k >= t.times
    ensures SameEvent(Repeat(t, e, now, k), t)
  {
    if k > 0 {
      RepeatCounts(t, e, now, k - 1);
    }
  }

  /** The fields a stored Event trigger writes, absent ones as `None`. */
  function EventFields(t: Trigger): map<string, Option<JValue>>
    requires t.Event?
  {
    BaseFields(t.id, EventType)["event" := Some(JString(t.event))]["times" := Some(JInt(t.times))]
                 ["metadata" := OptDict(t.metadata)]["completionDate" := OptDate(t.completionDate)]
                 ["numberOfTimes" := OptInt(t.numberOfTimes)]
  }

  /** `MBEventTrigger.toJsonDictionary()` */
  function EventToRecord(t: Trigger): (d: Dict)
    requires t.Event?
    ensures RecordType(d) == EventType
  {
    Record(EventFields(t))
  }

  /** `MBEventTrigger(fromJsonDictionary:)` */
  function EventFromRecord(d: Dict): (t: Trigger)
    ensures t.Event? && t.id == RecordId(d)
    ensures t.times == IntAt(d, "times").GetOr(0)
  {
    Event(RecordId(d), StringAt(d, "event").GetOr(""), IntAt(d, "times").GetOr(0),
          DictAt(d, "metadata"), DateAt(d, "completionDate"), IntAt(d, "numberOfTimes"))
  }

  /** The stored record of an event trigger reads back as the same trigger. */
  lemma EventRoundTrip(t: Trigger)
    requires t.Event?
    ensures EventFromRecord(EventToRecord(t)) == t
  {
    var f := EventFields(t);
    RecordRead(f, "id");
    RecordRead(f, "event");
    RecordRead(f, "times");
    RecordRead(f, "metadata");
    RecordRead(f, "completionDate");
    RecordRead(f, "numberOfTimes");
  }

  /** A missing `times` means one occurrence from the API but zero from a stored record. */
  lemma TimesDefaults(d: Dict)
    requires "times" !in d
    ensures EventFromApi(d).times == 1
    ensures EventFromRecord(d).times == 0
  {
  }
}
