/**
 * A view trigger: counts the openings of a named screen; it is completed
 * separately, once the user has stayed `secondsOnView` seconds on the screen
 * after the count reached `times`.
 */
module ViewTriggers {
  import opened Wrappers
  import opened Clock
  import opened Json
  import opened JsonDates
  import opened Triggers
  import opened TrackingModels

  /** `MBViewTrigger(dictionary:)` */
  function ViewFromApi(d: Dict): (t: Trigger)
    ensures t.View? && t.id == RecordId(d)
    ensures t.view == StringAt(d, "view_name").GetOr("")
    ensures t.times == IntAt(d, "times").GetOr(0)
    ensures t.secondsOnView == NumberAt(d, "seconds_on_view").GetOr(0.0)
    ensures t.completionDate.None? && t.numberOfTimes.None?
  {
    View(RecordId(d), StringAt(d, "view_name").GetOr(""), IntAt(d, "times").GetOr(0),
         NumberAt(d, "seconds_on_view").GetOr(0.0), None, None)
  }

  /** Two view triggers that differ at most in their count and completion date. */
  predicate SameView(a: Trigger, b: Trigger)
    requires a.View? && b.View?
  {
    a.id == b.id && a.view == b.view && a.times == b.times && a.secondsOnView == b.secondsOnView
  }

  /** `screenViewed(view:)`: the updated trigger and whether it changed. It never completes the trigger. */
  function ScreenViewed(t: Trigger, v: AutomationView): (r: (Trigger, bool))
    requires t.View?
    ensures r.0.View? && SameView(r.0, t)
    ensures r.1 <==> v.view == t.view
    ensures !r.1 ==> r.0 == t
    ensures r.1 ==> r.0.numberOfTimes == Some(t.numberOfTimes.GetOr(0) + 1)
    ensures r.0.completionDate == t.completionDate
  {
    if v.view == t.view then
      var count := match t.numberOfTimes { case Some(n) => n + 1 case None => 1 };
      (View(t.id, t.view, t.times, t.secondsOnView, t.completionDate, Some(count)), true)
    else (t, false)
  }

  /** `setCompleted()` at time `now`. */
  function SetCompleted(t: Trigger, now: Time): (r: Trigger)
    requires t.View?
    ensures r.View? && SameView(r, t)
    ensures r.completionDate == Some(now) && r.numberOfTimes == t.numberOfTimes
  {
    View(t.id, t.view, t.times, t.secondsOnView, Some(now), t.numberOfTimes)
  }

  /** `MBViewTrigger.isValid(fromAppStartup:)` */
  predicate ViewIsValid(t: Trigger, now: Time)
    requires t.View?
  {
    CompletedNotBefore(t.completionDate, now)
  }

  /** A view trigger is valid at the instant it is completed, and invalid at any later time. */
  lemma ViewCompletionWindow(t: Trigger, now: Time, later: Time)
    requires t.View? && later > now
    ensures ViewIsValid(SetCompleted(t, now), now)
    ensures !ViewIsValid(SetCompleted(t, now), later)
  {
  }

  /** Opens the same screen `k` times. */
  function ViewedTimes(t: Trigger, v: AutomationView, k: nat): (r: Trigger)
    requires t.View?
    ensures r.View?
  {
    if k == 0 then t else ScreenViewed(ViewedTimes(t, v, k - 1), v).0
  }

  /**
   * However often a fresh trigger's screen is opened, the count equals the
   * number of openings and the trigger stays invalid: only a completion makes
   * it valid.
   */
  lemma {:induction false} ViewedTimesCounts(t: Trigger, v: AutomationView, k: nat, now: Time)
    requires t.View? && v.view == t.view && t.numberOfTimes.None? && t.completionDate.None?
    ensures ViewedTimes(t, v, k).numberOfTimes == (if k == 0 then None else Some(k))
    ensures ViewedTimes(t, v, k).completionDate.None?
    ensures SameView(ViewedTimes(t, v, k), t)
    ensures !ViewIsValid(ViewedTimes(t, v, k), now)
  {
    if k > 0 {
      ViewedTimesCounts(t, v, k - 1, now);
    }
  }

  /** The fields a stored View trigger writes, absent ones as `None`. */
  function ViewFields(t: Trigger): map<string, Option<JValue>>
    requires t.View?
  {
    BaseFields(t.id, ViewType)["view" := Some(JString(t.view))]["times" := Some(JInt(t.times))]
                 ["secondsOnView" := Some(JReal(t.secondsOnView))]
                 ["completionDate" := OptDate(t.completionDate)]["numberOfTimes" := OptInt(t.numberOfTimes)]
  }

  /** `MBViewTrigger.toJsonDictionary()` */
  function ViewToRecord(t: Trigger): (d: Dict)
    requires t.View?
    ensures RecordType(d) == ViewType
  {
    Record(ViewFields(t))
  }

  /** `MBViewTrigger(fromJsonDictionary:)` */
  function ViewFromRecord(d: Dict): (t: Trigger)
    ensures t.View? && t.id == RecordId(d)
    ensures t.times == IntAt(d, "times").GetOr(0)
    ensures t.secondsOnView == NumberAt(d, "secondsOnView").GetOr(0.0)
  {
    View(RecordId(d), StringAt(d, "view").GetOr(""), IntAt(d, "times").GetOr(0),
         NumberAt(d, "secondsOnView").GetOr(0.0), DateAt(d, "completionDate"), IntAt(d, "numberOfTimes"))
  }

  /** The stored record of a view trigger reads back as the same trigger, absent optional fields staying absent. */
  lemma ViewRoundTrip(t: Trigger)
    requires t.View?
    ensures ViewFromRecord(ViewToRecord(t)) == t
  {
    var f := ViewFields(t);
    RecordRead(f, "id");
    RecordRead(f, "view");
    RecordRead(f, "times");
    RecordRead(f, "secondsOnView");
    RecordRead(f, "completionDate");
    RecordRead(f, "numberOfTimes");
  }
}
