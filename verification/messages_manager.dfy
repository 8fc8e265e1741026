/**
 * The automation messages manager: the parsing of received triggers, the
 * handlers that feed events, tag changes, locations and screen views to the
 * triggers of the stored messages, and the deferred completion of view
 * triggers. Every handler works on the messages read from the file, saves
 * them again only when a trigger reports a change, and then checks them.
 */
module MessagesManager {
  import opened Wrappers
  import opened Clock
  import opened Json
  import opened Triggers
  import opened MessageTriggers
  import opened EventTriggers
  import opened ViewTriggers
  import opened TagChangeTriggers
  import opened LocationTriggers
  import opened Messages
  import opened PushNotifications
  import opened TrackingModels
  import opened MessageStore

  // ------------------------------------------------------------ set triggers

  /** An element of the `[AnyObject]` list handed to `setTriggers(toMessages:)`. */
  datatype Received = ReceivedMessage(message: Message) | OtherObject

  /** One message of `setTriggers(toMessages:)`: raw triggers of a message with automation on are parsed. */
  function ParseTriggers(m: Message): (r: Message)
    ensures r.(triggers := m.triggers) == m
    ensures r.triggers.RawTriggers? <==> m.triggers.RawTriggers? && !m.automationIsOn
    ensures StorableTriggers(m.triggers) ==> StorableTriggers(r.triggers)
    ensures !m.triggers.RawTriggers? ==> r == m
  {
    if m.automationIsOn && m.triggers.RawTriggers? then
      m.(triggers := ParsedTriggers(TriggerSetFromApi(m.triggers.raw)))
    else m
  }

  /** `setTriggers(toMessages:)` */
  function SetTriggers(items: seq<Received>): (r: seq<Received>)
    ensures |r| == |items|
    ensures forall i :: 0 <= i < |items| && items[i].OtherObject? ==> r[i] == items[i]
    ensures forall i :: 0 <= i < |items| && items[i].ReceivedMessage? ==> r[i] == ReceivedMessage(ParseTriggers(items[i].message))
  {
    seq(|items|, i requires 0 <= i < |items| =>
      match items[i]
      case ReceivedMessage(m) => ReceivedMessage(ParseTriggers(m))
      case OtherObject => OtherObject)
  }

  /**
   * Triggers are parsed once: after `setTriggers` no message with automation
   * on holds raw triggers, and a second pass changes nothing.
   */
  lemma SetTriggersOnce(items: seq<Received>)
    ensures SetTriggers(SetTriggers(items)) == SetTriggers(items)
    ensures forall i :: 0 <= i < |items| && items[i].ReceivedMessage? && items[i].message.automationIsOn ==>
      !SetTriggers(items)[i].message.triggers.RawTriggers?
  {
    var once := SetTriggers(items);
    forall i | 0 <= i < |items|
      ensures SetTriggers(once)[i] == once[i]
    {
      if items[i].ReceivedMessage? {
        var m := ParseTriggers(items[i].message);
        assert m.triggers.RawTriggers? ==> !m.automationIsOn;
      }
    }
  }

  // ------------------------------------------------------------ stepping triggers

  /** Each trigger stepped, and whether any step reported a change. */
  function StepTriggers(ts: seq<Trigger>, step: Trigger -> (Trigger, bool)): (r: (seq<Trigger>, bool))
    ensures |r.0| == |ts|
    ensures forall k :: 0 <= k < |ts| ==> r.0[k] == step(ts[k]).0
    ensures r.1 <==> exists k :: 0 <= k < |ts| && step(ts[k]).1
    decreases |ts|
  {
    if |ts| == 0 then ([], false)
    else
      var rest := StepTriggers(ts[1..], step);
      assert forall k :: 1 <= k < |ts| ==> ts[k] == ts[1..][k - 1];
      ([step(ts[0]).0] + rest.0, step(ts[0]).1 || rest.1)
  }

  /** Some trigger of the message reports a change. */
  predicate Reports(m: Message, step: Trigger -> (Trigger, bool))
  {
    m.triggers.ParsedTriggers? &&
    exists k :: 0 <= k < |m.triggers.parsed.triggers| && step(m.triggers.parsed.triggers[k]).1
  }

  /** A message with every trigger stepped; a message without parsed triggers is left alone. */
  function StepMessage(m: Message, step: Trigger -> (Trigger, bool)): (r: (Message, bool))
    ensures r.0.(triggers := m.triggers) == m
    ensures r.1 <==> Reports(m, step)
    ensures !m.triggers.ParsedTriggers? ==> r.0 == m
    ensures m.triggers.ParsedTriggers? ==>
              r.0.triggers.ParsedTriggers? &&
              r.0.triggers.parsed.mode == m.triggers.parsed.mode &&
              |r.0.triggers.parsed.triggers| == |m.triggers.parsed.triggers| &&
              forall k :: 0 <= k < |m.triggers.parsed.triggers| ==>
                r.0.triggers.parsed.triggers[k] == step(m.triggers.parsed.triggers[k]).0
  {
    match m.triggers
    case ParsedTriggers(ts) =>
      var stepped := StepTriggers(ts.triggers, step);
      (m.(triggers := ParsedTriggers(TriggerSet(ts.mode, stepped.0))), stepped.1)
    case _ => (m, false)
  }

  /** The loop of a handler over the stored messages: each message stepped, and whether any trigger reported a change. */
  function StepMessages(ms: seq<Message>, step: Trigger -> (Trigger, bool)): (r: (seq<Message>, bool))
    ensures |r.0| == |ms|
    ensures forall i :: 0 <= i < |ms| ==> r.0[i] == StepMessage(ms[i], step).0
    ensures r.1 <==> exists i :: 0 <= i < |ms| && Reports(ms[i], step)
    decreases |ms|
  {
    if |ms| == 0 then ([], false)
    else
      var rest := StepMessages(ms[1..], step);
      assert forall i :: 1 <= i < |ms| ==> ms[i] == ms[1..][i - 1];
      ([StepMessage(ms[0], step).0] + rest.0, StepMessage(ms[0], step).1 || rest.1)
  }

  /** The step turns every trigger a factory can build into another one. */
  ghost predicate KeepsWellFormed(step: Trigger -> (Trigger, bool))
  {
    forall t :: WellFormed(t) ==> WellFormed(step(t).0)
  }

  /** Stepping keeps stored messages storable. */
  lemma StepKeepsStorable(ms: seq<Message>, step: Trigger -> (Trigger, bool))
    requires AllStorable(ms) && KeepsWellFormed(step)
    ensures AllStorable(StepMessages(ms, step).0)
  {
    var r := StepMessages(ms, step).0;
    forall i | 0 <= i < |ms|
      ensures StorableTriggers(r[i].triggers)
    {
      if ms[i].triggers.ParsedTriggers? {
        var ts := ms[i].triggers.parsed.triggers;
        forall k | 0 <= k < |ts|
          ensures WellFormed(r[i].triggers.parsed.triggers[k])
        {
          assert WellFormed(ts[k]);
        }
      }
    }
  }

  /** The outputs `f` gives for the triggers of `m` from index `k` on, in order. */
  function CollectFrom<X(==,!new)>(m: Message, k: nat, f: (Message, nat, Trigger) -> seq<X>): (r: seq<X>)
    requires m.triggers.ParsedTriggers? && k <= |m.triggers.parsed.triggers|
    ensures forall x :: x in r <==>
      exists j :: k <= j < |m.triggers.parsed.triggers| && x in f(m, j, m.triggers.parsed.triggers[j])
    decreases |m.triggers.parsed.triggers| - k
  {
    if k == |m.triggers.parsed.triggers| then []
    else f(m, k, m.triggers.parsed.triggers[k]) + CollectFrom(m, k + 1, f)
  }

  /** Some trigger of `m`, at some index, gives `x`. */
  predicate Produces<X(==,!new)>(m: Message, f: (Message, nat, Trigger) -> seq<X>, x: X)
  {
    m.triggers.ParsedTriggers? &&
    exists j :: 0 <= j < |m.triggers.parsed.triggers| && x in f(m, j, m.triggers.parsed.triggers[j])
  }

  /** The outputs `f` gives for every trigger of every message, in the order of the handler's loops. */
  function Collect<X(==,!new)>(ms: seq<Message>, f: (Message, nat, Trigger) -> seq<X>): (r: seq<X>)
    ensures forall x :: x in r <==> exists i :: 0 <= i < |ms| && Produces(ms[i], f, x)
    decreases |ms|
  {
    if |ms| == 0 then []
    else
      var here := if ms[0].triggers.ParsedTriggers? then CollectFrom(ms[0], 0, f) else [];
      assert forall i :: 1 <= i < |ms| ==> ms[i] == ms[1..][i - 1];
      here + Collect(ms[1..], f)
  }

  // ------------------------------------------------------------ events

  /** The step of an event on one trigger: event triggers count it, the others ignore it. */
  function EventStep(e: AutomationEvent, now: Time): Trigger -> (Trigger, bool)
  {
    (t: Trigger) => if t.Event? then EventHappened(t, e, now) else (t, false)
  }

  lemma EventStepKeepsWellFormed(e: AutomationEvent, now: Time)
    ensures KeepsWellFormed(EventStep(e, now))
  {
  }

  /** `eventHappened(event:)` */
  function HandleEvent(st: State, e: AutomationEvent, env: Env): (r: State)
    ensures SavedMessages(st.messagesFile) == [] ==> r == st
  {
    var saved := SavedMessages(st.messagesFile);
    if |saved| == 0 then st
    else
      var stepped := StepMessages(saved, EventStep(e, env.now));
      var st1 := if stepped.1 then st.(messagesFile := WriteMessages(st.messagesFile, stepped.0)) else st;
      CheckMessages(st1, false, env)
  }

  /**
   * An event is saved only when some event trigger counted it: otherwise the
   * file is untouched; when one did, the file reads back as the stepped
   * messages.
   */
  lemma EventSavedOnChange(st: State, e: AutomationEvent, env: Env)
    requires SavedMessages(st.messagesFile) != []
    ensures var stepped := StepMessages(SavedMessages(st.messagesFile), EventStep(e, env.now));
      var r := HandleEvent(st, e, env);
      (!stepped.1 ==> r.messagesFile == st.messagesFile) &&
      (stepped.1 && Serialisable(MessagesDocument(stepped.0)) ==> SavedMessages(r.messagesFile) == ReloadedAll(stepped.0))
  {
    var saved := SavedMessages(st.messagesFile);
    var step := EventStep(e, env.now);
    var stepped := StepMessages(saved, step);
    if stepped.1 && Serialisable(MessagesDocument(stepped.0)) {
      SavedStorable(st.messagesFile);
      EventStepKeepsWellFormed(e, env.now);
      StepKeepsStorable(saved, step);
      WriteThenRead(st.messagesFile, stepped.0);
    }
  }

  // ------------------------------------------------------------ tags

  /** The step of a tag change on one trigger; whether it changed is the status the manager reads. */
  function TagStep(tag: string, value: Option<string>, env: Env): Trigger -> (Trigger, bool)
  {
    (t: Trigger) =>
      if t.TagChange? then (TagChanged(t, tag, value, env.now).0, env.hooks.tagStatus(t, tag, value) != Unchanged)
      else (t, false)
  }

  /** A cancellation of the message's push, for a tag-change trigger reported invalid on a push message sent after a delay. */
  function TagCancel(tag: string, value: Option<string>, hooks: Hooks): (Message, nat, Trigger) -> seq<Message>
  {
    (m: Message, k: nat, t: Trigger) =>
      if t.TagChange? && hooks.tagStatus(t, tag, value) == Invalid && m.messageType == PushType && m.sendAfterDays != 0
      then [m] else []
  }

  /** The messages whose push a tag change cancels, once per invalid trigger. */
  function TagCancels(saved: seq<Message>, tag: string, value: Option<string>, hooks: Hooks): seq<Message>
  {
    Collect(saved, TagCancel(tag, value, hooks))
  }

  /** The message has a tag-change trigger reported invalid. */
  predicate HasInvalidTag(m: Message, tag: string, value: Option<string>, hooks: Hooks)
  {
    m.triggers.ParsedTriggers? &&
    exists k :: 0 <= k < |m.triggers.parsed.triggers| && m.triggers.parsed.triggers[k].TagChange? &&
      hooks.tagStatus(m.triggers.parsed.triggers[k], tag, value) == Invalid
  }

  /**
   * A tag change cancels the push of exactly the stored push messages with a
   * send-after delay that have a tag-change trigger reported invalid.
   */
  lemma TagCancelsExactly(saved: seq<Message>, tag: string, value: Option<string>, hooks: Hooks, m: Message)
    ensures m in TagCancels(saved, tag, value, hooks) <==>
      m in saved && m.messageType == PushType && m.sendAfterDays != 0 && HasInvalidTag(m, tag, value, hooks)
  {
    var f := TagCancel(tag, value, hooks);
    if m in saved && m.messageType == PushType && m.sendAfterDays != 0 && HasInvalidTag(m, tag, value, hooks) {
      var i :| 0 <= i < |saved| && saved[i] == m;
      var k :| 0 <= k < |m.triggers.parsed.triggers| && m.triggers.parsed.triggers[k].TagChange? &&
        hooks.tagStatus(m.triggers.parsed.triggers[k], tag, value) == Invalid;
      assert m in f(m, k, m.triggers.parsed.triggers[k]);
      assert Produces(saved[i], f, m);
    }
    if m in TagCancels(saved, tag, value, hooks) {
      var i :| 0 <= i < |saved| && Produces(saved[i], f, m);
      var k :| 0 <= k < |saved[i].triggers.parsed.triggers| && m in f(saved[i], k, saved[i].triggers.parsed.triggers[k]);
      assert m == saved[i];
    }
  }

  /** The cancellations, in order. */
  function CancelEach(push: PushState, ms: seq<Message>): (r: PushState)
    ensures forall q :: q in r.pending ==> q in push.pending
    ensures forall i :: 0 <= i < |ms| ==> !HasPending(r.pending, NotificationIdentifier(ms[i]))
    decreases |ms|
  {
    if |ms| == 0 then push
    else
      var r := CancelEach(CancelPushNotification(push, ms[0]), ms[1..]);
      assert forall i :: 1 <= i < |ms| ==> ms[i] == ms[1..][i - 1];
      r
  }

  /** `tagChanged(tag:value:)` */
  function HandleTag(st: State, tag: string, value: Option<string>, env: Env): (r: State)
    ensures SavedMessages(st.messagesFile) == [] ==> r == st
  {
    var saved := SavedMessages(st.messagesFile);
    if |saved| == 0 then st
    else
      var stepped := StepMessages(saved, TagStep(tag, value, env));
      var st1 := st.(push := CancelEach(st.push, TagCancels(saved, tag, value, env.hooks)));
      var st2 := if stepped.1 then st1.(messagesFile := WriteMessages(st1.messagesFile, stepped.0)) else st1;
      CheckMessages(st2, false, env)
  }

  /** A tag change with no status other than unchanged leaves the messages file as it was. */
  lemma TagSavedOnlyOnChange(st: State, tag: string, value: Option<string>, env: Env)
    requires forall i :: 0 <= i < |SavedMessages(st.messagesFile)| ==>
      !Reports(SavedMessages(st.messagesFile)[i], TagStep(tag, value, env))
    ensures HandleTag(st, tag, value, env).messagesFile == st.messagesFile
  {
  }

  // ------------------------------------------------------------ locations

  /** `lastLocation()`: a stored coordinate of 0 means no last location. */
  function LastLocation(st: State): (r: Option<Point>)
    ensures r.Some? ==> r.value.latitude != 0.0 && r.value.longitude != 0.0
  {
    if st.lastLatitude != 0.0 && st.lastLongitude != 0.0 then Some(Point(st.lastLatitude, st.lastLongitude)) else None
  }

  /** `saveLocationAsLast(location:)` */
  function SaveLocationAsLast(st: State, p: Point): (r: State)
    ensures r.(lastLatitude := st.lastLatitude, lastLongitude := st.lastLongitude) == st
  {
    st.(lastLatitude := p.latitude, lastLongitude := p.longitude)
  }

  /** A saved location reads back, unless one of its coordinates is 0. */
  lemma LastLocationRoundTrip(st: State, p: Point)
    ensures LastLocation(SaveLocationAsLast(st, p)) ==
      if p.latitude != 0.0 && p.longitude != 0.0 then Some(p) else None
  {
  }

  /** The step of a location update on one trigger. */
  function LocationStep(location: Point, last: Option<Point>, env: Env): Trigger -> (Trigger, bool)
  {
    (t: Trigger) =>
      if t.Location? then LocationDataUpdated(t, location, last, env.now, env.hooks.inside) else (t, false)
  }

  /** The delayed check a location trigger asks for: its `afterDays` after the update, when not 0. */
  function LocationDelay(location: Point, last: Option<Point>, env: Env): (Message, nat, Trigger) -> seq<int>
  {
    (m: Message, k: nat, t: Trigger) =>
      if t.Location? then
        var updated := LocationDataUpdated(t, location, last, env.now, env.hooks.inside).0;
        if env.hooks.afterDays(updated) != 0 then [env.hooks.afterDays(updated)] else []
      else []
  }

  /** The delayed checks of a location update, in order; none is for 0 days. */
  function LocationDelays(saved: seq<Message>, location: Point, last: Option<Point>, env: Env): (r: seq<int>)
    ensures forall n :: n in r ==> n != 0
  {
    var f := LocationDelay(location, last, env);
    var r := Collect(saved, f);
    assert forall n :: n in r ==> n != 0 by {
      forall n | n in r
        ensures n != 0
      {
        var i :| 0 <= i < |saved| && Produces(saved[i], f, n);
      }
    }
    r
  }

  /** `locationDataUpdated(latitude:longitude:)` */
  function HandleLocation(st: State, latitude: real, longitude: real, env: Env): (r: State)
    ensures SavedMessages(st.messagesFile) == [] ==> r == st
    ensures SavedMessages(st.messagesFile) != [] ==> r.lastLatitude == latitude && r.lastLongitude == longitude
    ensures st.delayedChecks <= r.delayedChecks
    ensures forall n :: n in r.delayedChecks[|st.delayedChecks|..] ==> n != 0
  {
    var saved := SavedMessages(st.messagesFile);
    if |saved| == 0 then st
    else
      var location := Point(latitude, longitude);
      var last := LastLocation(st);
      var stepped := StepMessages(saved, LocationStep(location, last, env));
      var delays := LocationDelays(saved, location, last, env);
      var st1 := st.(delayedChecks := st.delayedChecks + delays);
      var st2 := if stepped.1 then st1.(messagesFile := WriteMessages(st1.messagesFile, stepped.0)) else st1;
      SaveLocationAsLast(CheckMessages(st2, false, env), location)
  }

  /**
   * The next update sees the location of this one as its last location, when
   * messages are stored and neither coordinate is 0; with no messages stored
   * the location is not remembered.
   */
  lemma LocationRemembered(st: State, latitude: real, longitude: real, env: Env)
    ensures var r := HandleLocation(st, latitude, longitude, env);
      LastLocation(r) == if SavedMessages(st.messagesFile) == [] then LastLocation(st)
                         else if latitude != 0.0 && longitude != 0.0 then Some(Point(latitude, longitude))
                         else None
  {
  }

  // ------------------------------------------------------------ check timer

  /**
   * `startMessagesTimer(time:)`: schedules one more repeating check every
   * `time` seconds and points `timer` at it. The timer it referred to before
   * is not invalidated, so the run loop keeps firing it.
   */
  function StartCheckTimer(st: State, time: real): (r: State)
    ensures |r.checkTimers| == |st.checkTimers| + 1 && r.checkTimers[|st.checkTimers|] == time
    ensures forall i :: 0 <= i < |st.checkTimers| ==> r.checkTimers[i] == st.checkTimers[i]
    ensures r.(checkTimers := st.checkTimers) == st
  {
    st.(checkTimers := st.checkTimers + [time])
  }

  /**
   * `messageTimerTimeChanged(time:)`: the timer `timer` refers to, if any, is
   * invalidated and a repeating check every `time` seconds takes its place;
   * timers leaked by earlier starts keep running.
   */
  function ChangeCheckTimer(st: State, time: real): (r: State)
    ensures |r.checkTimers| == if st.checkTimers == [] then 1 else |st.checkTimers|
    ensures r.checkTimers[|r.checkTimers| - 1] == time
    ensures forall i :: 0 <= i < |st.checkTimers| - 1 ==> r.checkTimers[i] == st.checkTimers[i]
    ensures r.(checkTimers := st.checkTimers) == st
  {
    if st.checkTimers == [] then st.(checkTimers := [time])
    else st.(checkTimers := st.checkTimers[..|st.checkTimers| - 1] + [time])
  }

  /** Changing the interval twice leaves only the last one in place of the referenced timer. */
  lemma CheckTimerReplaced(st: State, a: real, b: real)
    ensures ChangeCheckTimer(ChangeCheckTimer(st, a), b) == ChangeCheckTimer(st, b)
  {
  }

  /** A change right after a start replaces the timer that start scheduled, and only that one. */
  lemma ChangeAfterStart(st: State, a: real, b: real)
    ensures ChangeCheckTimer(StartCheckTimer(st, a), b) == StartCheckTimer(st, b)
  {
    assert (st.checkTimers + [a])[..|st.checkTimers|] == st.checkTimers;
  }

  /**
   * A start on a state whose check timer is running leaves both running: the
   * earlier interval is still scheduled next to the new one.
   */
  lemma StartKeepsRunningTimer(st: State, a: real, b: real)
    ensures var r := StartCheckTimer(StartCheckTimer(st, a), b);
      |r.checkTimers| == |st.checkTimers| + 2 && r.checkTimers[|st.checkTimers|] == a && r.checkTimers[|st.checkTimers| + 1] == b
  {
  }

  // ------------------------------------------------------------ screen views

  /** The step of a screen view on one trigger. */
  function ViewStep(v: AutomationView): Trigger -> (Trigger, bool)
  {
    (t: Trigger) => if t.View? then ScreenViewed(t, v) else (t, false)
  }

  lemma ViewStepKeepsWellFormed(v: AutomationView)
    ensures KeepsWellFormed(ViewStep(v))
  {
  }

  /**
   * The completion a view trigger requests when the view counts and its count
   * has reached `times`: for the message's id and the trigger's own index
   * (`firstIndex(of:)` compares the trigger objects by identity), after
   * `secondsOnView` seconds.
   */
  function ViewCompletion(v: AutomationView): (Message, nat, Trigger) -> seq<DelayedPerform>
  {
    (m: Message, k: nat, t: Trigger) =>
      if t.View? then
        var viewed := ScreenViewed(t, v);
        if viewed.1 && viewed.0.numberOfTimes.GetOr(0) >= viewed.0.times
        then [DelayedPerform(Some(Completion(m.id, k)), viewed.0.secondsOnView)]
        else []
      else []
  }

  function ViewCompletions(saved: seq<Message>, v: AutomationView): seq<DelayedPerform>
  {
    Collect(saved, ViewCompletion(v))
  }

  /**
   * The completion `p` names a view trigger of `m` for the viewed screen
   * whose count, with this view, reached `times`, and waits its `secondsOnView`.
   */
  predicate NamesViewTrigger(m: Message, p: DelayedPerform, v: AutomationView)
  {
    p.argument.Some? && m.id == p.argument.value.messageId && m.triggers.ParsedTriggers? &&
    p.argument.value.index < |m.triggers.parsed.triggers| &&
    var t := m.triggers.parsed.triggers[p.argument.value.index];
    t.View? && t.view == v.view && t.numberOfTimes.GetOr(0) + 1 >= t.times && p.delay == t.secondsOnView
  }

  lemma ViewCompletionNames(m: Message, k: nat, v: AutomationView, p: DelayedPerform)
    requires m.triggers.ParsedTriggers? && k < |m.triggers.parsed.triggers|
    requires p in ViewCompletion(v)(m, k, m.triggers.parsed.triggers[k])
    ensures NamesViewTrigger(m, p, v)
  {
  }

  /** Every completion a screen view requests names a view trigger of a stored message. */
  lemma ViewCompletionsTargetViews(saved: seq<Message>, v: AutomationView, p: DelayedPerform)
    requires p in ViewCompletions(saved, v)
    ensures exists i :: 0 <= i < |saved| && NamesViewTrigger(saved[i], p, v)
  {
    var f := ViewCompletion(v);
    var i :| 0 <= i < |saved| && Produces(saved[i], f, p);
    var k :| 0 <= k < |saved[i].triggers.parsed.triggers| && p in f(saved[i], k, saved[i].triggers.parsed.triggers[k]);
    ViewCompletionNames(saved[i], k, v, p);
  }

  /**
   * The stored message and trigger index a completion applies to: the first
   * message with the id, when it has parsed triggers and a view trigger at
   * the index.
   */
  function CompletionTarget(saved: seq<Message>, c: Completion): (r: Option<nat>)
    ensures r.Some? ==>
              r.value < |saved| && saved[r.value].id == c.messageId &&
              saved[r.value].triggers.ParsedTriggers? && c.index < |saved[r.value].triggers.parsed.triggers| &&
              saved[r.value].triggers.parsed.triggers[c.index].View?
    ensures r.None? ==>
              FirstMessageWithId(saved, c.messageId).None? ||
              !saved[FirstMessageWithId(saved, c.messageId).value].triggers.ParsedTriggers? ||
              c.index >= |saved[FirstMessageWithId(saved, c.messageId).value].triggers.parsed.triggers| ||
              !saved[FirstMessageWithId(saved, c.messageId).value].triggers.parsed.triggers[c.index].View?
  {
    match FirstMessageWithId(saved, c.messageId)
    case None => None
    case Some(j) =>
      if saved[j].triggers.ParsedTriggers? && c.index < |saved[j].triggers.parsed.triggers| &&
         saved[j].triggers.parsed.triggers[c.index].View?
      then Some(j) else None
  }

  /** The message with the view trigger at the index completed at `now`. */
  function CompletedAt(m: Message, index: nat, now: Time): (r: Message)
    requires m.triggers.ParsedTriggers? && index < |m.triggers.parsed.triggers|
    requires m.triggers.parsed.triggers[index].View?
    ensures r.(triggers := m.triggers) == m && r.triggers.ParsedTriggers?
    ensures r.triggers.parsed.mode == m.triggers.parsed.mode
    ensures |r.triggers.parsed.triggers| == |m.triggers.parsed.triggers|
    ensures forall k :: 0 <= k < |m.triggers.parsed.triggers| && k != index ==>
      r.triggers.parsed.triggers[k] == m.triggers.parsed.triggers[k]
    ensures r.triggers.parsed.triggers[index].View? && ViewIsValid(r.triggers.parsed.triggers[index], now)
  {
    var ts := m.triggers.parsed;
    m.(triggers := ParsedTriggers(TriggerSet(ts.mode, ts.triggers[index := SetCompleted(ts.triggers[index], now)])))
  }

  /** The stored messages with the completion's view trigger completed at `now`. */
  function CompletedList(saved: seq<Message>, c: Completion, now: Time): (r: seq<Message>)
    requires CompletionTarget(saved, c).Some?
    ensures var j := CompletionTarget(saved, c).value;
      |r| == |saved| && r[j] == CompletedAt(saved[j], c.index, now) &&
      forall i :: 0 <= i < |saved| && i != j ==> r[i] == saved[i]
  {
    var j := CompletionTarget(saved, c).value;
    saved[j := CompletedAt(saved[j], c.index, now)]
  }

  /** Completing a view trigger keeps the messages storable. */
  lemma CompletedListStorable(saved: seq<Message>, c: Completion, now: Time)
    requires CompletionTarget(saved, c).Some? && AllStorable(saved)
    ensures AllStorable(CompletedList(saved, c, now))
  {
    var j := CompletionTarget(saved, c).value;
    var r := CompletedList(saved, c, now);
    var ts := saved[j].triggers.parsed.triggers;
    forall k | 0 <= k < |ts|
      ensures WellFormed(r[j].triggers.parsed.triggers[k])
    {
      assert WellFormed(ts[k]);
    }
    assert StorableTriggers(r[j].triggers);
  }

  /** `setViewTriggerCompleted(data:)` */
  function SetViewTriggerCompleted(st: State, c: Completion, env: Env): (r: State)
    ensures CompletionTarget(SavedMessages(st.messagesFile), c).None? ==> r == st
    ensures r.pending == st.pending
  {
    var saved := SavedMessages(st.messagesFile);
    if CompletionTarget(saved, c).None? then st
    else CheckMessages(st.(messagesFile := WriteMessages(st.messagesFile, CompletedList(saved, c, env.now))), false, env)
  }

  /**
   * A completion that finds its view trigger saves the messages with that
   * trigger completed: they read back as the reloaded list, in which the
   * trigger is valid at the time of the completion.
   */
  lemma CompletionSaved(st: State, c: Completion, env: Env)
    requires CompletionTarget(SavedMessages(st.messagesFile), c).Some?
    requires Serialisable(MessagesDocument(CompletedList(SavedMessages(st.messagesFile), c, env.now)))
    ensures SavedMessages(SetViewTriggerCompleted(st, c, env).messagesFile) ==
      ReloadedAll(CompletedList(SavedMessages(st.messagesFile), c, env.now))
  {
    var saved := SavedMessages(st.messagesFile);
    SavedStorable(st.messagesFile);
    CompletedListStorable(saved, c, env.now);
    WriteThenRead(st.messagesFile, CompletedList(saved, c, env.now));
  }

  /** Each completion a screen view requests, in order: a delayed one is scheduled, an immediate one runs at once. */
  function RunCompletions(st: State, cs: seq<DelayedPerform>, env: Env): (r: State)
    ensures forall p :: p in r.pending <==> p in st.pending || (p in cs && p.delay != 0.0)
    ensures st.pending <= r.pending
    decreases |cs|
  {
    if |cs| == 0 then st
    else
      var c := cs[0];
      var st1 :=
        if c.delay != 0.0 then st.(pending := st.pending + [c])
        else if c.argument.Some? then SetViewTriggerCompleted(st, c.argument.value, env)
        else st;
      assert forall i :: 1 <= i < |cs| ==> cs[i] == cs[1..][i - 1];
      RunCompletions(st1, cs[1..], env)
  }

  /**
   * `cancelPreviousPerformRequests(withTarget:selector:object:)`: cancels the
   * requests whose argument equals `argument`; passing nil cancels only the
   * requests made with a nil argument.
   */
  function CancelPreviousRequests(pending: seq<DelayedPerform>, argument: Option<Completion>): (r: seq<DelayedPerform>)
    ensures forall p :: p in r <==> p in pending && p.argument != argument
    decreases |pending|
  {
    if |pending| == 0 then []
    else if pending[0].argument == argument then CancelPreviousRequests(pending[1..], argument)
    else [pending[0]] + CancelPreviousRequests(pending[1..], argument)
  }

  /**
   * As written, a screen view cancels with a nil argument, and every deferred
   * completion carries its data: none is cancelled, so a completion requested
   * for the previous screen still fires after the user has left it.
   */
  lemma NilCancelKeepsCompletions(pending: seq<DelayedPerform>)
    requires forall p :: p in pending ==> p.argument.Some?
    ensures CancelPreviousRequests(pending, None) == pending
    decreases |pending|
  {
    if |pending| > 0 {
      assert pending[0] in pending;
      assert forall p :: p in pending[1..] ==> p in pending;
      NilCancelKeepsCompletions(pending[1..]);
    }
  }

  /**
   * What `screenViewed(view:)` does once the earlier requests have been
   * cancelled: the view is counted, the completions it reaches are run or
   * scheduled, and the counts are saved when a trigger counted the view.
   */
  function ViewAfterCancel(st: State, v: AutomationView, env: Env): (r: State)
    ensures forall p :: p in r.pending <==>
      p in st.pending || (p in ViewCompletions(SavedMessages(st.messagesFile), v) && p.delay != 0.0)
    ensures st.pending <= r.pending
  {
    var saved := SavedMessages(st.messagesFile);
    if |saved| == 0 then st
    else
      var stepped := StepMessages(saved, ViewStep(v));
      var st1 := RunCompletions(st, ViewCompletions(saved, v), env);
      if stepped.1 then st1.(messagesFile := WriteMessages(st1.messagesFile, stepped.0)) else st1
  }

  /**
   * `screenViewed(view:)` of the view manager as written: the cancellation
   * passes a nil argument, so every earlier request that carries data is kept,
   * and this view's delayed completions are added after them.
   */
  function HandleScreenViewAsWritten(st: State, v: AutomationView, env: Env): (r: State)
    ensures forall p :: p in r.pending <==>
      (p in st.pending && p.argument.Some?) ||
      (p in ViewCompletions(SavedMessages(st.messagesFile), v) && p.delay != 0.0)
    ensures CancelPreviousRequests(st.pending, None) <= r.pending
  {
    ViewAfterCancel(st.(pending := CancelPreviousRequests(st.pending, None)), v, env)
  }

  /**
   * As written, every deferred completion requested before a screen view
   * survives it, in its place at the head of the pending list.
   */
  lemma ScreenViewKeepsEarlierCompletions(st: State, v: AutomationView, env: Env)
    requires forall p :: p in st.pending ==> p.argument.Some?
    ensures st.pending <= HandleScreenViewAsWritten(st, v, env).pending
  {
    NilCancelKeepsCompletions(st.pending);
  }

  /**
   * `screenViewed(view:)` of the view manager, with the cancellation the code
   * intends: every completion requested before the view is dropped first.
   */
  function HandleScreenView(st: State, v: AutomationView, env: Env): (r: State)
    ensures forall p :: p in r.pending <==>
      p in ViewCompletions(SavedMessages(st.messagesFile), v) && p.delay != 0.0
  {
    ViewAfterCancel(st.(pending := []), v, env)
  }

  /** Checking the messages neither reads nor writes the pending requests. */
  lemma CheckIgnoresPending(st: State, x: seq<DelayedPerform>, fromStartup: bool, env: Env)
    ensures CheckMessages(st.(pending := x), fromStartup, env) == CheckMessages(st, fromStartup, env).(pending := x)
  {
  }

  /** Completing a view trigger neither reads nor writes the pending requests. */
  lemma CompletionIgnoresPending(st: State, x: seq<DelayedPerform>, c: Completion, env: Env)
    ensures SetViewTriggerCompleted(st.(pending := x), c, env) == SetViewTriggerCompleted(st, c, env).(pending := x)
  {
    var saved := SavedMessages(st.messagesFile);
    if CompletionTarget(saved, c).Some? {
      var f := WriteMessages(st.messagesFile, CompletedList(saved, c, env.now));
      assert st.(pending := x).(messagesFile := f) == st.(messagesFile := f).(pending := x);
      CheckIgnoresPending(st.(messagesFile := f), x, false, env);
    }
  }

  /** Running completions touches nothing but the pending list in a way the earlier requests decide. */
  lemma {:induction false} RunCompletionsIgnoresPending(st: State, x: seq<DelayedPerform>, cs: seq<DelayedPerform>, env: Env)
    ensures RunCompletions(st.(pending := x), cs, env).(pending := []) == RunCompletions(st, cs, env).(pending := [])
    decreases |cs|
  {
    if |cs| > 0 {
      var c := cs[0];
      if c.delay != 0.0 {
        var st1 := st.(pending := st.pending + [c]);
        assert st.(pending := x).(pending := x + [c]) == st1.(pending := x + [c]);
        RunCompletionsIgnoresPending(st1, x + [c], cs[1..], env);
      } else if c.argument.Some? {
        var st1 := SetViewTriggerCompleted(st, c.argument.value, env);
        CompletionIgnoresPending(st, x, c.argument.value, env);
        RunCompletionsIgnoresPending(st1, x, cs[1..], env);
      } else {
        RunCompletionsIgnoresPending(st, x, cs[1..], env);
      }
    }
  }

  /**
   * The screen view as written and as intended end in the same files, checks
   * and push state; they differ only in the pending list, where the code as
   * written also keeps every earlier request that carries data.
   */
  lemma ScreenViewCancelDiffers(st: State, v: AutomationView, env: Env)
    ensures var a := HandleScreenViewAsWritten(st, v, env); var b := HandleScreenView(st, v, env);
      a.(pending := b.pending) == b &&
      forall p :: p in a.pending <==> p in b.pending || (p in st.pending && p.argument.Some?)
  {
    var kept := CancelPreviousRequests(st.pending, None);
    var saved := SavedMessages(st.messagesFile);
    if |saved| != 0 {
      RunCompletionsIgnoresPending(st.(pending := []), kept, ViewCompletions(saved, v), env);
      assert st.(pending := []).(pending := kept) == st.(pending := kept);
    }
  }

  /**
   * When a view counts, the save of the counts comes after the immediate
   * completions and overwrites them: the file reads back as the counted
   * messages, whose view triggers keep the completion dates they were read with.
   */
  lemma ImmediateCompletionOverwritten(st: State, v: AutomationView, env: Env)
    requires SavedMessages(st.messagesFile) != []
    requires StepMessages(SavedMessages(st.messagesFile), ViewStep(v)).1
    requires Serialisable(MessagesDocument(StepMessages(SavedMessages(st.messagesFile), ViewStep(v)).0))
    ensures SavedMessages(HandleScreenView(st, v, env).messagesFile) ==
      ReloadedAll(StepMessages(SavedMessages(st.messagesFile), ViewStep(v)).0)
  {
    var saved := SavedMessages(st.messagesFile);
    var step := ViewStep(v);
    SavedStorable(st.messagesFile);
    ViewStepKeepsWellFormed(v);
    StepKeepsStorable(saved, step);
    var st1 := RunCompletions(st.(pending := []), ViewCompletions(saved, v), env);
    WriteThenRead(st1.messagesFile, StepMessages(saved, step).0);
  }

  /** A deferred request fires: it leaves the pending list and completes its view trigger. */
  function FirePending(st: State, k: nat, env: Env): (r: State)
    requires k < |st.pending|
    ensures |r.pending| == |st.pending| - 1
  {
    var p := st.pending[k];
    var st1 := st.(pending := st.pending[..k] + st.pending[k + 1..]);
    if p.argument.Some? then SetViewTriggerCompleted(st1, p.argument.value, env) else st1
  }
}
