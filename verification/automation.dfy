/**
 * `MBAutomation`, the plugin: it wires the callbacks of the host framework
 * (messages received, tag changed, location updated, app became active) to
 * the messages manager, and its events to both the messages manager and the
 * tracking manager.
 */
module Automation {
  import opened Wrappers
  import opened Messages
  import opened TrackingModels
  import opened Json
  import TrackingDb
  import MessageStore
  import MessagesManager
  import TrackingManager

  /**
   * The plugin's own settings together with the state of the two managers it
   * drives: the messages manager's files and timers and the shared tracking
   * manager.
   */
  datatype Plugin = Plugin(
    trackingEnabled: bool,
    eventsTimerTime: real,
    messages: MessageStore.State,
    tracking: TrackingManager.State)

  /** The interval of the repeating messages check started at init, in seconds. */
  const MessagesTimerTime: real := 30.0

  /** The default of `eventsTimerTime`, in seconds. */
  const DefaultEventsTimerTime: real := 10.0

  /** The `startupOrder` the plugin reports to the host framework. */
  const StartupOrder: int := 3

  /**
   * `init(trackingEnabled:trackViewsAutomatically:eventsTimerTime:)`: creates
   * the tables, starts one more 30 s messages timer (an earlier one keeps
   * running) and hands the interval to the tracking manager. The plugin's own `eventsTimerTime` is not assigned and
   * keeps its default.
   */
  function Init(trackingEnabled: bool, eventsTimerTime: real, messages: MessageStore.State,
                tracking: TrackingManager.State, opens: bool): (r: Plugin)
    ensures r.trackingEnabled == trackingEnabled
    ensures r.eventsTimerTime == DefaultEventsTimerTime
    ensures r.messages == MessagesManager.StartCheckTimer(messages, MessagesTimerTime)
    ensures r.messages.checkTimers == messages.checkTimers + [MessagesTimerTime]
    ensures r.tracking.timerTime == eventsTimerTime
    ensures r.tracking.timer.Some? <==> tracking.timer.Some?
    ensures r.tracking.db == TrackingDb.SetupTables(tracking.db, opens)
    ensures opens ==> r.tracking.db.ready
  {
    var tracking1 := tracking.(db := TrackingDb.SetupTables(tracking.db, opens));
    Plugin(trackingEnabled, DefaultEventsTimerTime,
           MessagesManager.StartCheckTimer(messages, MessagesTimerTime),
           TrackingManager.SetTimerTime(tracking1, eventsTimerTime))
  }

  /** A second plugin created while the first one's check timer runs leaves two 30 s checks running. */
  lemma ReinitLeaksCheckTimer(trackingEnabled: bool, eventsTimerTime: real, messages: MessageStore.State,
                              tracking: TrackingManager.State, opens: bool)
    ensures var p := Init(trackingEnabled, eventsTimerTime, messages, tracking, opens);
      var q := Init(trackingEnabled, eventsTimerTime, p.messages, p.tracking, opens);
      q.messages.checkTimers == messages.checkTimers + [MessagesTimerTime, MessagesTimerTime]
  {
  }

  /** Setting `eventsTimerTime` hands the value on to the tracking manager. */
  function SetEventsTimerTime(p: Plugin, time: real): (r: Plugin)
    ensures r.eventsTimerTime == time && r.tracking.timerTime == time
    ensures r.tracking.timer.Some? <==> p.tracking.timer.Some?
    ensures TrackingManager.TimerCurrent(r.tracking)
    ensures r.messages == p.messages && r.trackingEnabled == p.trackingEnabled
    ensures r.tracking.db == p.tracking.db && r.tracking.stage == p.tracking.stage
  {
    p.(eventsTimerTime := time, tracking := TrackingManager.SetTimerTime(p.tracking, time))
  }

  /**
   * What `trackingEnabled()` of the tracking manager finds: this plugin's
   * flag when it is registered with the host framework, nothing otherwise.
   */
  function Gate(p: Plugin, registered: bool): (g: Option<bool>)
    ensures TrackingManager.TrackingEnabled(g) <==> registered && p.trackingEnabled
  {
    if registered then Some(p.trackingEnabled) else None
  }

  /**
   * `sendEvent(_:name:metadata:)`: one event, stamped now, goes first to the
   * triggers and then to the telemetry queue.
   */
  function SendEvent(p: Plugin, event: string, name: Option<string>, metadata: Option<Dict>,
                     env: MessageStore.Env, registered: bool, opens: bool): (r: Plugin)
    ensures var e := NewEvent(event, name, metadata, env.now);
      r.messages == MessagesManager.HandleEvent(p.messages, e, env) &&
      r.tracking == TrackingManager.TrackEvent(p.tracking, e, Gate(p, registered), opens)
    ensures r.trackingEnabled == p.trackingEnabled && r.eventsTimerTime == p.eventsTimerTime
  {
    var e := NewEvent(event, name, metadata, env.now);
    var messages := MessagesManager.HandleEvent(p.messages, e, env);
    p.(messages := messages, tracking := TrackingManager.TrackEvent(p.tracking, e, Gate(p, registered), opens))
  }

  /** A sent event is queued, with the id the table hands out, exactly when tracking is on and the table takes it. */
  lemma SentEventQueued(p: Plugin, event: string, name: Option<string>, metadata: Option<Dict>,
                        env: MessageStore.Env, registered: bool, opens: bool)
    ensures var r := SendEvent(p, event, name, metadata, env, registered, opens);
      var q := p.tracking.db;
      if registered && p.trackingEnabled && opens && q.ready
      then r.tracking.db.events == q.events + [TrackingDb.EventRowOf(NewEvent(event, name, metadata, env.now), q.nextEventId)]
      else r.tracking.db == q
  {
  }

  /** The block run at startup: the flush timer starts, and the startup completion is called. */
  function Startup(p: Plugin): (r: (Plugin, bool))
    ensures r.0.tracking.timer == Some(p.tracking.timerTime)
    ensures r.0.messages == p.messages && r.0.tracking.db == p.tracking.db
    ensures r.1
  {
    (p.(tracking := TrackingManager.StartTimer(p.tracking)), true)
  }

  /** The messages of a list whose every element is a message. */
  function MessagesOf(items: seq<MessagesManager.Received>): (ms: seq<Message>)
    requires forall i :: 0 <= i < |items| ==> items[i].ReceivedMessage?
    ensures |ms| == |items| && forall i :: 0 <= i < |items| ==> ms[i] == items[i].message
  {
    seq(|items|, i requires 0 <= i < |items| => items[i].message)
  }

  /** The list handed over holds messages only, so `as? [MBMessage]` succeeds. */
  predicate AllMessages(items: seq<MessagesManager.Received>)
  {
    forall i :: 0 <= i < |items| ==> items[i].ReceivedMessage?
  }

  /** The received messages with automation on, after their triggers were parsed. */
  function Automated(items: seq<MessagesManager.Received>): (ms: seq<Message>)
    requires AllMessages(items)
    ensures forall m :: m in ms <==> m in MessagesOf(MessagesManager.SetTriggers(items)) && m.automationIsOn
  {
    MessageStore.Filter(MessagesOf(MessagesManager.SetTriggers(items)), (m: Message) => m.automationIsOn)
  }

  /**
   * `messagesReceived(messages:fromStartup:)`: the plugin and the list as the
   * caller sees it afterwards. Triggers are parsed in place; when the list
   * holds messages only, those with automation on are saved as a refresh and
   * the messages are checked with the same `fromStartup`.
   */
  function MessagesReceived(p: Plugin, items: seq<MessagesManager.Received>, fromStartup: bool,
                            env: MessageStore.Env): (r: (Plugin, seq<MessagesManager.Received>))
    ensures r.1 == MessagesManager.SetTriggers(items)
    ensures !AllMessages(items) ==> r.0 == p
    ensures AllMessages(items) ==>
      var file := MessageStore.SaveMessages(p.messages.messagesFile, Automated(items), true, env.hooks.updated);
      r.0 == p.(messages := MessageStore.CheckMessages(p.messages.(messagesFile := file), fromStartup, env))
  {
    var parsed := MessagesManager.SetTriggers(items);
    if !AllMessages(parsed) then (p, parsed)
    else
      var file := MessageStore.SaveMessages(p.messages.messagesFile, Automated(items), true, env.hooks.updated);
      (p.(messages := MessageStore.CheckMessages(p.messages.(messagesFile := file), fromStartup, env)), parsed)
  }

  /**
   * The messages saved on receipt are the automated ones only, with their
   * triggers parsed: the written list follows them id by id.
   */
  lemma ReceivedAutomatedOnly(p: Plugin, items: seq<MessagesManager.Received>, fromStartup: bool, env: MessageStore.Env)
    requires AllMessages(items)
    ensures forall m :: m in Automated(items) ==> m.automationIsOn && !m.triggers.RawTriggers?
    ensures var written := MessageStore.RefreshList(MessageStore.SavedMessages(p.messages.messagesFile), Automated(items), env.hooks.updated);
      var r := MessagesReceived(p, items, fromStartup, env).0;
      r.messages.messagesFile == MessageStore.WriteMessages(p.messages.messagesFile, written) &&
      |written| == |Automated(items)| &&
      forall i :: 0 <= i < |written| ==> written[i].id == Automated(items)[i].id
  {
    MessagesManager.SetTriggersOnce(items);
    var parsed := MessagesOf(MessagesManager.SetTriggers(items));
    forall m | m in Automated(items)
      ensures !m.triggers.RawTriggers?
    {
      var i :| 0 <= i < |parsed| && parsed[i] == m;
    }
  }

  /** `tagChanged(tag:value:)`: only the messages manager sees a tag change; telemetry is untouched. */
  function TagChanged(p: Plugin, tag: string, value: Option<string>, env: MessageStore.Env): (r: Plugin)
    ensures r.messages == MessagesManager.HandleTag(p.messages, tag, value, env)
    ensures r.tracking == p.tracking && r.trackingEnabled == p.trackingEnabled && r.eventsTimerTime == p.eventsTimerTime
    ensures MessageStore.SavedMessages(p.messages.messagesFile) == [] ==> r == p
  {
    p.(messages := MessagesManager.HandleTag(p.messages, tag, value, env))
  }

  /**
   * `locationDataUpdated(latitude:longitude:)`: with messages stored, the
   * point becomes the last location and delayed checks are only ever added;
   * telemetry is untouched.
   */
  function LocationDataUpdated(p: Plugin, latitude: real, longitude: real, env: MessageStore.Env): (r: Plugin)
    ensures r.messages == MessagesManager.HandleLocation(p.messages, latitude, longitude, env)
    ensures r.tracking == p.tracking && r.trackingEnabled == p.trackingEnabled && r.eventsTimerTime == p.eventsTimerTime
    ensures MessageStore.SavedMessages(p.messages.messagesFile) == [] ==> r == p
    ensures MessageStore.SavedMessages(p.messages.messagesFile) != [] ==>
      r.messages.lastLatitude == latitude && r.messages.lastLongitude == longitude
    ensures p.messages.delayedChecks <= r.messages.delayedChecks
  {
    p.(messages := MessagesManager.HandleLocation(p.messages, latitude, longitude, env))
  }

  /**
   * `applicationDidBecomeActive()`: the messages are checked, never as a
   * startup check; the file, the timers and telemetry are untouched, and a
   * list is presented only outside the background with the messages plugin present.
   */
  function DidBecomeActive(p: Plugin, env: MessageStore.Env): (r: Plugin)
    ensures r.messages == MessageStore.CheckMessages(p.messages, false, env)
    ensures r.messages.messagesFile == p.messages.messagesFile && r.messages.pending == p.messages.pending
    ensures r.messages.checkTimers == p.messages.checkTimers && r.messages.delayedChecks == p.messages.delayedChecks
    ensures r.tracking == p.tracking && r.trackingEnabled == p.trackingEnabled
    ensures |r.messages.presented| > |p.messages.presented| ==> env.notBackground && env.messagesPlugin
  {
    p.(messages := MessageStore.CheckMessages(p.messages, false, env))
  }
}
