/**
 * `MBAutomationTrackingManager`: stores views and events in the telemetry
 * queue and flushes it on a repeating timer. A flush is a chain of
 * asynchronous hops (database work on the database queue, a request to the
 * server); the model keeps the hop the chain waits for as `stage`, so that
 * records tracked in between are seen. Network outcomes are parameters.
 */
module TrackingManager {
  import opened Wrappers
  import opened TrackingModels
  import opened TrackingDb

  /** The hop a flush waits for. `Stalled` is a completion that is never called. */
  datatype Stage =
    | Idle
    | ListingViews
    | PostingViews(views: seq<AutomationView>)
    | DeletingViews(views: seq<AutomationView>)
    | ListingEvents
    | PostingEvents(events: seq<AutomationEvent>)
    | DeletingEvents(events: seq<AutomationEvent>)
    | Stalled

  /**
   * `timer` is the interval of the scheduled repeating timer, `None` when no
   * timer is scheduled; `sendingData` is the in-flight flag.
   */
  datatype State = State(timerTime: real, timer: Option<real>, sendingData: bool, stage: Stage, db: Db)

  /** The default interval between flushes, in seconds. */
  const DefaultTimerTime: real := 10.0

  /** The shared manager before anything happened, over the database file `db`. */
  function Initial(db: Db): (r: State)
    ensures Coherent(r) && TimerCurrent(r) && !r.sendingData && r.timerTime == DefaultTimerTime
  {
    State(DefaultTimerTime, None, false, Idle, db)
  }

  /** The in-flight flag is set exactly while a flush is under way. */
  predicate Coherent(st: State)
  {
    st.sendingData <==> !st.stage.Idle?
  }

  /** A scheduled timer always runs with the current interval. */
  predicate TimerCurrent(st: State)
  {
    st.timer.Some? ==> st.timer.value == st.timerTime
  }

  // ----- Timer ----------------------------------------------------------

  /** `startTimer()`: any scheduled timer is replaced by one with the current interval. */
  function StartTimer(st: State): (r: State)
    ensures r.timer == Some(st.timerTime) && TimerCurrent(r)
    ensures r.timerTime == st.timerTime && r.sendingData == st.sendingData && r.stage == st.stage && r.db == st.db
  {
    st.(timer := Some(st.timerTime))
  }

  /** `stopTimer()` */
  function StopTimer(st: State): (r: State)
    ensures r.timer.None? && TimerCurrent(r)
    ensures r.timerTime == st.timerTime && r.sendingData == st.sendingData && r.stage == st.stage && r.db == st.db
  {
    st.(timer := None)
  }

  /** Setting `timerTime` restarts the timer only when one is scheduled. */
  function SetTimerTime(st: State, time: real): (r: State)
    ensures r.timerTime == time
    ensures r.timer.Some? <==> st.timer.Some?
    ensures TimerCurrent(r)
    ensures r.sendingData == st.sendingData && r.stage == st.stage && r.db == st.db
  {
    var st1 := st.(timerTime := time);
    if st.timer.Some? then StartTimer(st1) else st1
  }

  // ----- Tracking ---------------------------------------------------------

  /**
   * `trackingEnabled()`: `gate` is the `trackingEnabled` flag of the
   * registered automation plugin, `None` when none is registered.
   */
  predicate TrackingEnabled(gate: Option<bool>)
  {
    gate == Some(true)
  }

  /** `trackView(_:)` */
  function TrackView(st: State, v: AutomationView, gate: Option<bool>, opens: bool): (r: State)
    ensures !TrackingEnabled(gate) ==> r == st
    ensures TrackingEnabled(gate) ==> r == st.(db := SaveView(st.db, v, opens))
  {
    if TrackingEnabled(gate) then st.(db := SaveView(st.db, v, opens)) else st
  }

  /** `trackEvent(_:)` */
  function TrackEvent(st: State, e: AutomationEvent, gate: Option<bool>, opens: bool): (r: State)
    ensures !TrackingEnabled(gate) ==> r == st
    ensures TrackingEnabled(gate) ==> r == st.(db := SaveEvent(st.db, e, opens))
  {
    if TrackingEnabled(gate) then st.(db := SaveEvent(st.db, e, opens)) else st
  }

  // ----- Flush --------------------------------------------------------

  /** `checkQueue()`: a tick while a flush is in flight is skipped; otherwise a flush starts with the views. */
  function CheckQueue(st: State): (r: State)
    ensures st.sendingData ==> r == st
    ensures !st.sendingData ==> r == st.(sendingData := true, stage := ListingViews)
    ensures r.sendingData
    ensures Coherent(st) ==> Coherent(r)
  {
    if st.sendingData then st else st.(sendingData := true, stage := ListingViews)
  }

  /** The flush stages that wait for the database queue. */
  predicate AtDatabase(stage: Stage)
  {
    stage.ListingViews? || stage.DeletingViews? || stage.ListingEvents? || stage.DeletingEvents?
  }

  /** The flush stages that wait for the server. */
  predicate AtServer(stage: Stage)
  {
    stage.PostingViews? || stage.PostingEvents?
  }

  /** The position of a stage along a flush: views before events. */
  function Phase(stage: Stage): nat
  {
    match stage
    case Idle => 0
    case ListingViews => 1
    case PostingViews(_) => 2
    case DeletingViews(_) => 3
    case ListingEvents => 4
    case PostingEvents(_) => 5
    case DeletingEvents(_) => 6
    case Stalled => 7
  }

  /** The end of the events step: the in-flight flag is cleared. */
  function Finish(st: State): State
  {
    st.(sendingData := false, stage := Idle)
  }

  /**
   * The database hop of a flush, with the listing answering `nil` when the
   * file cannot be opened and a delete completing either way.
   */
  function RunDb(st: State, opens: bool): (r: State)
    requires AtDatabase(st.stage)
    ensures Phase(r.stage) > Phase(st.stage) || r.stage.Idle?
    ensures !r.stage.Stalled?
    ensures r.sendingData == st.sendingData || (r.stage.Idle? && !r.sendingData)
    ensures r.timer == st.timer && r.timerTime == st.timerTime
    ensures st.stage.ListingViews? || st.stage.ListingEvents? ==> r.db == st.db
    ensures !opens ==> r.db == st.db
  {
    match st.stage
    case ListingViews =>
      var views := ViewsOrNil(st.db, opens);
      if views.None? || |views.value| == 0 then st.(stage := ListingEvents)
      else st.(stage := PostingViews(views.value))
    case DeletingViews(views) =>
      st.(db := DeleteViews(st.db, views, opens).0, stage := ListingEvents)
    case ListingEvents =>
      var events := EventsOrNil(st.db, opens);
      if events.None? || |events.value| == 0 then Finish(st)
      else st.(stage := PostingEvents(events.value))
    case DeletingEvents(events) =>
      Finish(st.(db := DeleteEvents(st.db, events, opens).0))
  }

  /**
   * The database hop as written: when the file cannot be opened the closure
   * is never called and the flush waits for ever.
   */
  function RunDbAsWritten(st: State, opens: bool): (r: State)
    requires AtDatabase(st.stage)
    ensures opens ==> r == RunDb(st, true)
    ensures !opens ==> r.stage.Stalled? && r.sendingData == st.sendingData && r.db == st.db
  {
    if opens then RunDb(st, true) else st.(stage := Stalled)
  }

  /** The server's answer to the request of a flush: success deletes the batch, failure moves on. */
  function Respond(st: State, success: bool): (r: State)
    requires AtServer(st.stage)
    ensures Phase(r.stage) > Phase(st.stage) || r.stage.Idle?
    ensures r.db == st.db && r.timer == st.timer && r.timerTime == st.timerTime
    ensures st.stage.PostingViews? ==> r.stage == (if success then DeletingViews(st.stage.views) else ListingEvents)
    ensures st.stage.PostingEvents? && success ==> r.stage == DeletingEvents(st.stage.events)
    ensures st.stage.PostingEvents? && !success ==> r == Finish(st)
  {
    match st.stage
    case PostingViews(views) => st.(stage := if success then DeletingViews(views) else ListingEvents)
    case PostingEvents(events) => if success then st.(stage := DeletingEvents(events)) else Finish(st)
  }

  // ----- Properties -------------------------------------------------------

  /** Every hop of a flush keeps the in-flight flag in step with the stage. */
  lemma FlushKeepsCoherent(st: State, opens: bool, success: bool)
    requires Coherent(st)
    ensures AtDatabase(st.stage) ==> Coherent(RunDb(st, opens)) && Coherent(RunDbAsWritten(st, opens))
    ensures AtServer(st.stage) ==> Coherent(Respond(st, success))
  {
  }

  /**
   * The in-flight flag is cleared only by the events step: a hop that clears
   * it starts from listing, posting or deleting events.
   */
  lemma FlagClearedByEventsStep(st: State, opens: bool, success: bool)
    requires Coherent(st)
    ensures AtDatabase(st.stage) && !RunDb(st, opens).sendingData ==>
      st.stage.ListingEvents? || st.stage.DeletingEvents?
    ensures AtServer(st.stage) && !Respond(st, success).sendingData ==> st.stage.PostingEvents?
  {
  }

  /** A batch of views is deleted only after the server accepted it. */
  lemma ViewsDeletedOnlyAfterSuccess(st: State, success: bool)
    requires st.stage.PostingViews?
    ensures Respond(st, success).stage.DeletingViews? <==> success
  {
  }

  /** An empty views table skips the request and goes straight to the events. */
  lemma EmptyViewsSkipRequest(st: State, opens: bool)
    requires st.stage.ListingViews? && (!st.db.ready || |st.db.views| == 0)
    ensures RunDb(st, opens) == st.(stage := ListingEvents)
  {
    if opens && st.db.ready {
      ListedViewsAreTheTable(st.db);
    }
  }

  /**
   * A successful flush of views deletes exactly the uploaded rows: views
   * tracked while the request was in flight stay queued.
   */
  lemma SuccessfulFlushKeepsNewViews(st: State, v: AutomationView, gate: Option<bool>, opensSave: bool)
    requires st.stage.ListingViews? && st.db.ready && Valid(st.db) && st.db.nextViewId <= MaxColumnInt + 1
    requires |st.db.views| != 0
    ensures var posting := RunDb(st, true);
      var tracked := TrackView(posting, v, gate, opensSave);
      var done := RunDb(Respond(tracked, true), true);
      forall row :: row in done.db.views <==> row in tracked.db.views && row !in st.db.views
  {
    ListedViewsAreTheTable(st.db);
    var posting := RunDb(st, true);
    assert posting.stage == PostingViews(ListViews(st.db, true).value);
    var tracked := TrackView(posting, v, gate, opensSave);
    assert tracked.db.views[..|st.db.views|] == st.db.views;
    DeleteListedViews(st.db, tracked.db);
  }

  /**
   * A successful flush of events deletes exactly the uploaded rows: events
   * tracked while the request was in flight stay queued.
   */
  lemma SuccessfulFlushKeepsNewEvents(st: State, e: AutomationEvent, gate: Option<bool>, opensSave: bool)
    requires st.stage.ListingEvents? && st.db.ready && Valid(st.db) && st.db.nextEventId <= MaxColumnInt + 1
    requires |st.db.events| != 0
    ensures var posting := RunDb(st, true);
      var tracked := TrackEvent(posting, e, gate, opensSave);
      var done := RunDb(Respond(tracked, true), true);
      forall row :: row in done.db.events <==> row in tracked.db.events && row !in st.db.events
  {
    ListedEventsAreTheTable(st.db);
    var posting := RunDb(st, true);
    assert posting.stage == PostingEvents(ListEvents(st.db, true).value);
    var tracked := TrackEvent(posting, e, gate, opensSave);
    assert tracked.db.events[..|st.db.events|] == st.db.events;
    var responded := Respond(tracked, true);
    assert responded.stage == DeletingEvents(ListEvents(st.db, true).value);
    assert RunDb(responded, true).db == DeleteEvents(tracked.db, ListEvents(st.db, true).value, true).0;
    DeleteListedEvents(st.db, tracked.db);
  }

  /** A failed request deletes nothing and keeps the batch queued for the next flush. */
  lemma FailedFlushKeepsQueue(st: State)
    requires AtServer(st.stage)
    ensures Respond(st, false).db == st.db
    ensures st.stage.PostingViews? ==> Respond(st, false).stage == ListingEvents
  {
  }

  /**
   * As written, a database that cannot be opened leaves the flush waiting
   * with the flag set, and from then on every tick is skipped.
   */
  lemma OpenFailureStallsFlush(st: State)
    requires Coherent(st) && AtDatabase(st.stage)
    ensures var stalled := RunDbAsWritten(st, false);
      stalled.sendingData && stalled.stage.Stalled? && CheckQueue(stalled) == stalled
  {
  }

  /** With the listing answering `nil`, a flush never stalls: each hop moves forward or ends it. */
  lemma FlushAlwaysProgresses(st: State, opens: bool)
    requires AtDatabase(st.stage)
    ensures var r := RunDb(st, opens);
      !r.stage.Stalled? && (Phase(r.stage) > Phase(st.stage) || (r.stage.Idle? && !r.sendingData))
  {
  }
}
