/** An app-opening trigger: valid at startup once the app has been opened `times` times. */
module AppOpeningTriggers {
  import opened Wrappers
  import opened Json
  import opened JsonDates
  import opened Triggers
  import opened Audience

  /** `MBAppOpeningTrigger(dictionary:)` */
  function AppOpeningFromApi(d: Dict): (t: Trigger)
    ensures t.AppOpening? && t.id == RecordId(d)
    ensures t.times == IntAt(d, "times").GetOr(0)
  {
    AppOpening(RecordId(d), IntAt(d, "times").GetOr(0))
  }

  /** `MBAppOpeningTrigger.isValid(fromAppStartup:)` against the audience's session counter. */
  predicate AppOpeningIsValid(t: Trigger, fromStartup: bool, sessions: Sessions)
    requires t.AppOpening?
  {
    fromStartup && CurrentSession(sessions) >= t.times
  }

  /**
   * Never valid outside startup; at startup valid iff the session counter has
   * reached `times`; with `times` missing from the API, valid at every startup.
   */
  lemma AppOpeningValidity(t: Trigger, d: Dict, sessions: Sessions)
    requires t.AppOpening?
    ensures !AppOpeningIsValid(t, false, sessions)
    ensures AppOpeningIsValid(t, true, sessions) <==> sessions.counter >= t.times
    ensures "times" !in d && sessions.counter >= 0 ==> AppOpeningIsValid(AppOpeningFromApi(d), true, sessions)
  {
  }

  /** Each new session can only turn a startup check from invalid to valid, never back. */
  lemma AppOpeningMonotone(t: Trigger, sessions: Sessions, now: int)
    requires t.AppOpening? && AppOpeningIsValid(t, true, sessions)
    ensures AppOpeningIsValid(t, true, IncrementSession(sessions, now))
  {
  }

  /** `MBAppOpeningTrigger.toJsonDictionary()` */
  function AppOpeningToRecord(t: Trigger): (d: Dict)
    requires t.AppOpening?
    ensures d.Keys == {"id", "type", "times"}
  {
    Record(BaseFields(t.id, AppOpeningType)["times" := Some(JInt(t.times))])
  }

  /** `MBAppOpeningTrigger(fromJsonDictionary:)` */
  function AppOpeningFromRecord(d: Dict): (t: Trigger)
    ensures t.AppOpening? && t.id == RecordId(d)
    ensures t.times == IntAt(d, "times").GetOr(0)
  {
    AppOpening(RecordId(d), IntAt(d, "times").GetOr(0))
  }

  /** The stored record reads back as the same trigger, with the app-opening type. */
  lemma AppOpeningRoundTrip(t: Trigger)
    requires t.AppOpening?
    ensures AppOpeningFromRecord(AppOpeningToRecord(t)) == t
    ensures RecordType(AppOpeningToRecord(t)) == AppOpeningType
  {
    var d := AppOpeningToRecord(t);
    assert StringAt(d, "id") == Some(t.id);
    assert IntAt(d, "type") == Some(TypeRaw(AppOpeningType));
  }
}

/**
 * An inactive-user trigger: valid at startup when at least `days` whole days
 * passed between the start of the previous session and of the current one.
 */
module InactiveUserTriggers {
  import opened Wrappers
  import opened Clock
  import opened Json
  import opened JsonDates
  import opened Triggers
  import opened Audience

  /** `MBInactiveUserTrigger(dictionary:)` */
  function InactiveUserFromApi(d: Dict): (t: Trigger)
    ensures t.InactiveUser? && t.id == RecordId(d)
    ensures t.days == IntAt(d, "days").GetOr(0)
  {
    InactiveUser(RecordId(d), IntAt(d, "days").GetOr(0))
  }

  /** `MBInactiveUserTrigger.isValid(fromAppStartup:)` against the audience's session dates. */
  predicate InactiveUserIsValid(t: Trigger, fromStartup: bool, sessions: Sessions)
    requires t.InactiveUser?
  {
    var current := CurrentSession(sessions);
    fromStartup &&
    match (StartSessionDate(sessions, current), StartSessionDate(sessions, current - 1))
    case (Some(currentDate), Some(lastDate)) => WholeDaysBetween(lastDate, currentDate) >= t.days
    case _ => false
  }

  /** Never valid outside startup, nor when one of the two session dates is missing. */
  lemma InactiveUserNeedsDates(t: Trigger, sessions: Sessions)
    requires t.InactiveUser?
    ensures !InactiveUserIsValid(t, false, sessions)
    ensures StartSessionDate(sessions, sessions.counter).None? ==> !InactiveUserIsValid(t, true, sessions)
    ensures StartSessionDate(sessions, sessions.counter - 1).None? ==> !InactiveUserIsValid(t, true, sessions)
  {
  }

  /**
   * Right after a new session starts at `now`, the trigger is valid at
   * startup iff the previous session started at least `days` whole days
   * before `now`.
   */
  lemma InactiveAfterNewSession(t: Trigger, sessions: Sessions, now: Time)
    requires t.InactiveUser?
    ensures
      var previous := StartSessionDate(sessions, sessions.counter);
      InactiveUserIsValid(t, true, IncrementSession(sessions, now)) <==>
        previous.Some? && WholeDaysBetween(previous.value, now) >= t.days
  {
    var r := IncrementSession(sessions, now);
    IncrementSessionDates(sessions, now, r.counter);
    IncrementSessionDates(sessions, now, r.counter - 1);
  }

  /** `MBInactiveUserTrigger.toJsonDictionary()` */
  function InactiveUserToRecord(t: Trigger): (d: Dict)
    requires t.InactiveUser?
    ensures d.Keys == {"id", "type", "days"}
  {
    Record(BaseFields(t.id, InactiveUserType)["days" := Some(JInt(t.days))])
  }

  /** `MBInactiveUserTrigger(fromJsonDictionary:)` */
  function InactiveUserFromRecord(d: Dict): (t: Trigger)
    ensures t.InactiveUser? && t.id == RecordId(d)
    ensures t.days == IntAt(d, "days").GetOr(0)
  {
    InactiveUser(RecordId(d), IntAt(d, "days").GetOr(0))
  }

  /** The stored record reads back as the same trigger, with the inactive-user type. */
  lemma InactiveUserRoundTrip(t: Trigger)
    requires t.InactiveUser?
    ensures InactiveUserFromRecord(InactiveUserToRecord(t)) == t
    ensures RecordType(InactiveUserToRecord(t)) == InactiveUserType
  {
    var d := InactiveUserToRecord(t);
    assert StringAt(d, "id") == Some(t.id);
    assert IntAt(d, "type") == Some(TypeRaw(InactiveUserType));
  }
}
