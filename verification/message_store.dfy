/**
 * The store of automation messages and the check that hands the valid ones
 * to the in-app presenter and to the push notifications. The messages file,
 * the per-message trigger snapshots, the user defaults and the scheduled
 * work are fields of one `State`; the members the manager calls but no file
 * defines are the `Hooks`.
 */
module MessageStore {
  import opened Wrappers
  import opened Clock
  import opened Json
  import opened Triggers
  import opened MessageTriggers
  import opened LocationTriggers
  import opened Messages
  import opened PushNotifications

  // ------------------------------------------------------------------ hooks

  /** The status the manager reads from a tag-change trigger's `tagChanged(tag:value:)`. */
  datatype TagStatus = Unchanged | Changed | Invalid

  /**
   * Members the manager relies on that none of its files define: a trigger's
   * `isValid(message:fromAppStartup:)`, `updatedTrigger(newTrigger:)`, the
   * status of a tag change, a location trigger's `afterDays`, and the
   * containment test of a region.
   */
  datatype Hooks = Hooks(
    triggerValid: (Trigger, Message, bool) -> bool,
    updated: (Trigger, Trigger) -> Trigger,
    tagStatus: (Trigger, string, Option<string>) -> TagStatus,
    afterDays: Trigger -> int,
    inside: (Region, Point) -> bool)

  /**
   * What the manager reads from outside its stores: the clock, whether the
   * application is not in the background (so active or inactive), whether
   * the messages plugin is registered, the notification device and which
   * requests the notification centre accepts.
   */
  datatype Env = Env(now: Time, notBackground: bool, messagesPlugin: bool, device: Device,
                     accepted: string -> bool, hooks: Hooks)

  // ------------------------------------------------------------------ state

  /** The data of a deferred `setViewTriggerCompleted(data:)`: a message id and a trigger index. */
  datatype Completion = Completion(messageId: int, index: nat)

  /** A request of `perform(_:with:afterDelay:)`: its argument and its delay in seconds. */
  datatype DelayedPerform = DelayedPerform(argument: Option<Completion>, delay: real)

  /**
   * `messagesFile` is the content of the messages file (`None` when there is
   * no file); `snapshots` holds the trigger file of each message id;
   * `lastLatitude` and `lastLongitude` are the user defaults, 0 when unset;
   * `checkTimers` holds the interval of every repeating check timer still
   * scheduled, oldest first, the last being the one `timer` refers to;
   * `delayedChecks` the one-shot
   * checks scheduled after a number of days; `pending` the deferred view
   * completions; `presented` the lists of in-app messages handed to the
   * presenter.
   */
  datatype State = State(
    messagesFile: Option<JValue>,
    snapshots: map<int, Dict>,
    push: PushState,
    lastLatitude: real,
    lastLongitude: real,
    checkTimers: seq<real>,
    delayedChecks: seq<int>,
    pending: seq<DelayedPerform>,
    presented: seq<seq<Message>>)

  // ------------------------------------------------------------ the file

  /** `savedMessages()`: a missing file, or one that is not a list of dictionaries, holds no messages. */
  function SavedMessages(file: Option<JValue>): (ms: seq<Message>)
    ensures file.None? ==> ms == []
    ensures file.Some? && !(file.value.JArray? && AllObjects(file.value.items)) ==> ms == []
    ensures file.Some? && file.value.JArray? && AllObjects(file.value.items) ==> |ms| == |file.value.items|
  {
    match file
    case Some(JArray(items)) =>
      if AllObjects(items) then
        var ds := Fields(items);
        seq(|ds|, i requires 0 <= i < |ds| => MessageFromRecord(ds[i]))
      else []
    case _ => []
  }

  function MessageRecords(ms: seq<Message>): (ds: seq<Dict>)
    ensures |ds| == |ms|
    ensures forall i :: 0 <= i < |ms| ==> ds[i] == MessageToRecord(ms[i])
  {
    seq(|ms|, i requires 0 <= i < |ms| => MessageToRecord(ms[i]))
  }

  /** The document `saveMessages` writes for a list of messages. */
  function MessagesDocument(ms: seq<Message>): JValue
  {
    JArray(Objects(MessageRecords(ms)))
  }

  /** The write of `saveMessages`: a list that cannot be serialised leaves the file as it was. */
  function WriteMessages(file: Option<JValue>, ms: seq<Message>): (r: Option<JValue>)
    ensures Serialisable(MessagesDocument(ms)) ==> r == Some(MessagesDocument(ms))
    ensures !Serialisable(MessagesDocument(ms)) ==> r == file
  {
    if Serialisable(MessagesDocument(ms)) then Some(MessagesDocument(ms)) else file
  }

  /** Every message of the list can be stored. */
  predicate AllStorable(ms: seq<Message>)
  {
    forall i :: 0 <= i < |ms| ==> StorableTriggers(ms[i].triggers)
  }

  function ReloadedAll(ms: seq<Message>): (r: seq<Message>)
    ensures |r| == |ms|
    ensures forall i :: 0 <= i < |ms| ==> r[i] == Reloaded(ms[i])
  {
    seq(|ms|, i requires 0 <= i < |ms| => Reloaded(ms[i]))
  }

  /** A list written and read back is the list of the reloaded messages, in the same order. */
  lemma WriteThenRead(file: Option<JValue>, ms: seq<Message>)
    requires Serialisable(MessagesDocument(ms)) && AllStorable(ms)
    ensures SavedMessages(WriteMessages(file, ms)) == ReloadedAll(ms)
  {
    var ds := MessageRecords(ms);
    assert Fields(Objects(ds)) == ds;
    var back := SavedMessages(WriteMessages(file, ms));
    forall i | 0 <= i < |ms|
      ensures back[i] == Reloaded(ms[i])
    {
      MessageRoundTrip(ms[i]);
    }
  }

  /** Every message read from the file can be stored again: its parsed triggers come from the record factory. */
  lemma SavedStorable(file: Option<JValue>)
    ensures AllStorable(SavedMessages(file))
  {
    var ms := SavedMessages(file);
    forall i | 0 <= i < |ms|
      ensures StorableTriggers(ms[i].triggers)
    {
      var d := Fields(file.value.items)[i];
      assert ms[i] == MessageFromRecord(d);
      if DictAt(d, "triggers").Some? {
        var ts := TriggerSetFromRecord(DictAt(d, "triggers").value);
        assert ms[i].triggers == ParsedTriggers(ts);
        forall k | 0 <= k < |ts.triggers|
          ensures WellFormed(ts.triggers[k])
        {
        }
      }
    }
  }

  // ------------------------------------------------------------ refresh merge

  /** `messages.first(where: { $0.id == id })`, as an index. */
  function FirstMessageWithId(ms: seq<Message>, id: int): (r: Option<nat>)
    ensures r.Some? ==> r.value < |ms| && ms[r.value].id == id
    ensures r.Some? ==> forall j :: 0 <= j < r.value ==> ms[j].id != id
    ensures r.None? ==> forall j :: 0 <= j < |ms| ==> ms[j].id != id
  {
    if |ms| == 0 then None
    else if ms[0].id == id then Some(0)
    else match FirstMessageWithId(ms[1..], id)
      case None => None
      case Some(i) => Some(i + 1)
  }

  /** Two messages that differ at most in their triggers, send-after days and repeat count. */
  predicate SameStoredFields(a: Message, b: Message)
  {
    a.(triggers := b.triggers, sendAfterDays := b.sendAfterDays, repeatTimes := b.repeatTimes) == b
  }

  /**
   * A stored message `s` updated from its refreshed copy `m`: when both have
   * parsed triggers it takes the merged triggers, and the send-after days and
   * repeat count of the refresh; otherwise it stays as stored.
   */
  function Refreshed(s: Message, m: Message, updated: (Trigger, Trigger) -> Trigger): (r: Message)
    ensures SameStoredFields(r, s)
    ensures s.triggers.ParsedTriggers? && m.triggers.ParsedTriggers? ==>
      r.sendAfterDays == m.sendAfterDays && r.repeatTimes == m.repeatTimes &&
      r.triggers == ParsedTriggers(UpdateTriggers(s.triggers.parsed, m.triggers.parsed, updated))
    ensures !(s.triggers.ParsedTriggers? && m.triggers.ParsedTriggers?) ==> r == s
  {
    if s.triggers.ParsedTriggers? && m.triggers.ParsedTriggers? then
      s.(triggers := ParsedTriggers(UpdateTriggers(s.triggers.parsed, m.triggers.parsed, updated)),
         sendAfterDays := m.sendAfterDays, repeatTimes := m.repeatTimes)
    else s
  }

  /**
   * The stored messages after the loop of a refresh. Each refreshed message
   * updates, in place, the first stored message with its id: a stored
   * message is one object, so two refreshed messages with the same id update
   * it twice.
   */
  function UpdateStored(saved: seq<Message>, incoming: seq<Message>, updated: (Trigger, Trigger) -> Trigger): (r: seq<Message>)
    ensures |r| == |saved|
    ensures forall k :: 0 <= k < |saved| ==> r[k].id == saved[k].id
    decreases |incoming|
  {
    if |incoming| == 0 then saved
    else
      var s := UpdateStored(saved, incoming[..|incoming| - 1], updated);
      match FirstMessageWithId(saved, incoming[|incoming| - 1].id)
      case None => s
      case Some(j) => s[j := Refreshed(s[j], incoming[|incoming| - 1], updated)]
  }

  /**
   * The list `saveMessages(_:fromFetch: true)` writes: it follows the
   * refreshed list; a message already stored is the stored object after the
   * updates, a new one is taken as received. Stored messages the refresh
   * does not mention are dropped.
   */
  function RefreshList(saved: seq<Message>, incoming: seq<Message>, updated: (Trigger, Trigger) -> Trigger): (r: seq<Message>)
    ensures |r| == |incoming|
    ensures forall i :: 0 <= i < |incoming| ==> r[i].id == incoming[i].id
    ensures forall i :: 0 <= i < |incoming| && FirstMessageWithId(saved, incoming[i].id).None? ==> r[i] == incoming[i]
  {
    var stored := UpdateStored(saved, incoming, updated);
    seq(|incoming|, i requires 0 <= i < |incoming| =>
      match FirstMessageWithId(saved, incoming[i].id)
      case None => incoming[i]
      case Some(j) => stored[j])
  }

  predicate DistinctIds(ms: seq<Message>)
  {
    forall i, j :: 0 <= i < j < |ms| ==> ms[i].id != ms[j].id
  }

  /**
   * With distinct ids in the refresh, the stored message at `j` is updated
   * once, from the refreshed message with its id, or not at all.
   */
  lemma {:induction false} UpdateStoredOnce(saved: seq<Message>, incoming: seq<Message>,
                                            updated: (Trigger, Trigger) -> Trigger, j: nat)
    requires j < |saved| && DistinctIds(incoming)
    ensures forall i :: 0 <= i < |incoming| && FirstMessageWithId(saved, incoming[i].id) == Some(j) ==>
      UpdateStored(saved, incoming, updated)[j] == Refreshed(saved[j], incoming[i], updated)
    ensures (forall i :: 0 <= i < |incoming| ==> FirstMessageWithId(saved, incoming[i].id) != Some(j)) ==>
      UpdateStored(saved, incoming, updated)[j] == saved[j]
    decreases |incoming|
  {
    if |incoming| > 0 {
      var n := |incoming| - 1;
      var front := incoming[..n];
      assert DistinctIds(front);
      UpdateStoredOnce(saved, front, updated, j);
      var s := UpdateStored(saved, front, updated);
      var last := incoming[n];
      if FirstMessageWithId(saved, last.id) == Some(j) {
        forall i | 0 <= i < n
          ensures FirstMessageWithId(saved, front[i].id) != Some(j)
        {
          assert front[i] == incoming[i];
        }
        assert s[j] == saved[j];
      } else {
        forall i | 0 <= i < n && FirstMessageWithId(saved, incoming[i].id) == Some(j)
          ensures UpdateStored(saved, incoming, updated)[j] == Refreshed(saved[j], incoming[i], updated)
        {
          assert front[i] == incoming[i];
        }
      }
    }
  }

  /**
   * A refresh with distinct ids: a message already stored keeps its stored
   * fields and takes the merged triggers, send-after days and repeat count;
   * a new message is written as received.
   */
  lemma RefreshMerges(saved: seq<Message>, incoming: seq<Message>, updated: (Trigger, Trigger) -> Trigger, i: nat)
    requires i < |incoming| && DistinctIds(incoming)
    ensures var r := RefreshList(saved, incoming, updated);
      match FirstMessageWithId(saved, incoming[i].id)
      case None => r[i] == incoming[i]
      case Some(j) => r[i] == Refreshed(saved[j], incoming[i], updated)
  {
    match FirstMessageWithId(saved, incoming[i].id)
    case None =>
    case Some(j) => UpdateStoredOnce(saved, incoming, updated, j);
  }

  /** Two refreshed messages with the id of one stored message are both written as that message's final state. */
  lemma SharedStoredMessage(saved: seq<Message>, incoming: seq<Message>, updated: (Trigger, Trigger) -> Trigger, a: nat, b: nat)
    requires a < |incoming| && b < |incoming| && incoming[a].id == incoming[b].id
    requires FirstMessageWithId(saved, incoming[a].id).Some?
    ensures RefreshList(saved, incoming, updated)[a] == RefreshList(saved, incoming, updated)[b]
  {
  }

  /** `saveMessages(_:fromFetch:)`: a refresh merges into the stored messages, any other save writes the list as given. */
  function SaveMessages(file: Option<JValue>, ms: seq<Message>, fromFetch: bool, updated: (Trigger, Trigger) -> Trigger): (r: Option<JValue>)
    ensures !fromFetch ==> r == WriteMessages(file, ms)
    ensures fromFetch ==> r == WriteMessages(file, RefreshList(SavedMessages(file), ms, updated))
  {
    var toSave := if fromFetch then RefreshList(SavedMessages(file), ms, updated) else ms;
    WriteMessages(file, toSave)
  }

  /** A save that is not a refresh, read back, gives the reloaded list as given. */
  lemma VerbatimSave(file: Option<JValue>, ms: seq<Message>, updated: (Trigger, Trigger) -> Trigger)
    requires Serialisable(MessagesDocument(ms)) && AllStorable(ms)
    ensures SavedMessages(SaveMessages(file, ms, false, updated)) == ReloadedAll(ms)
  {
    WriteThenRead(file, ms);
  }

  // ------------------------------------------------------------ the check

  /** The message has an app-opening trigger. */
  predicate HasAppOpening(ts: TriggerSet)
  {
    exists i :: 0 <= i < |ts.triggers| && ts.triggers[i].AppOpening?
  }

  /** `triggers.isValid(message:fromAppStartup:)` of a message with parsed triggers. */
  predicate MessageValid(m: Message, fromStartup: bool, hooks: Hooks)
    requires m.triggers.ParsedTriggers?
  {
    IsValid(m.triggers.parsed.mode, m.triggers.parsed.triggers, (t: Trigger) => hooks.triggerValid(t, m, fromStartup))
  }

  /**
   * A repeating message is skipped when its saved snapshot equals its current
   * triggers, unless it has an app-opening trigger and the check runs at startup.
   */
  predicate SnapshotCurrent(snapshots: map<int, Dict>, m: Message, fromStartup: bool)
    requires m.triggers.ParsedTriggers?
  {
    m.repeatTimes > 0 && !(HasAppOpening(m.triggers.parsed) && fromStartup) &&
    m.id in snapshots && snapshots[m.id] == TriggerSetToRecord(m.triggers.parsed)
  }

  /** `saveMessageTrigger(message:)`: a record that cannot be serialised leaves the snapshot as it was. */
  function SaveSnapshot(snapshots: map<int, Dict>, m: Message): (r: map<int, Dict>)
    requires m.triggers.ParsedTriggers?
    ensures SerialisableDict(TriggerSetToRecord(m.triggers.parsed)) ==>
      m.id in r && r[m.id] == TriggerSetToRecord(m.triggers.parsed)
    ensures forall id :: id != m.id ==> (id in r <==> id in snapshots) && (id in r ==> r[id] == snapshots[id])
  {
    var rec := TriggerSetToRecord(m.triggers.parsed);
    if SerialisableDict(rec) then snapshots[m.id := rec] else snapshots
  }

  /** One message of the loop of `checkMessages(fromStartup:)`: the snapshots after it and whether it is shown. */
  function CheckOne(snapshots: map<int, Dict>, m: Message, fromStartup: bool, hooks: Hooks): (r: (map<int, Dict>, bool))
    ensures r.1 ==> m.triggers.ParsedTriggers? && MessageValid(m, fromStartup, hooks)
    ensures m.repeatTimes <= 0 ==> r.0 == snapshots
    ensures m.triggers.ParsedTriggers? && m.repeatTimes <= 0 ==> (r.1 <==> MessageValid(m, fromStartup, hooks))
    ensures forall id :: id != m.id ==> (id in r.0 <==> id in snapshots) && (id in r.0 ==> r.0[id] == snapshots[id])
  {
    if !m.triggers.ParsedTriggers? then (snapshots, false)
    else if m.repeatTimes > 0 then
      if SnapshotCurrent(snapshots, m, fromStartup) then (snapshots, false)
      else (SaveSnapshot(snapshots, m), MessageValid(m, fromStartup, hooks))
    else (snapshots, MessageValid(m, fromStartup, hooks))
  }

  /**
   * The de-duplication of repeating messages: once a check has stored the
   * snapshot of a message, a second check with the same triggers skips it,
   * unless it has an app-opening trigger and the check runs at startup.
   */
  lemma RepeatSkippedUntilChanged(snapshots: map<int, Dict>, m: Message, fromStartup: bool, hooks: Hooks)
    requires m.triggers.ParsedTriggers? && m.repeatTimes > 0
    requires SerialisableDict(TriggerSetToRecord(m.triggers.parsed))
    requires !(HasAppOpening(m.triggers.parsed) && fromStartup)
    ensures var first := CheckOne(snapshots, m, fromStartup, hooks);
      CheckOne(first.0, m, fromStartup, hooks) == (first.0, false)
  {
  }

  /** A repeating message whose triggers differ from its snapshot is checked, and its snapshot replaced. */
  lemma RepeatCheckedWhenChanged(snapshots: map<int, Dict>, m: Message, fromStartup: bool, hooks: Hooks)
    requires m.triggers.ParsedTriggers? && m.repeatTimes > 0
    requires m.id !in snapshots || snapshots[m.id] != TriggerSetToRecord(m.triggers.parsed)
    ensures CheckOne(snapshots, m, fromStartup, hooks) ==
      (SaveSnapshot(snapshots, m), MessageValid(m, fromStartup, hooks))
  {
  }

  /** The loop of `checkMessages(fromStartup:)`: the snapshots after it and the messages to show, in order. */
  function CheckAll(snapshots: map<int, Dict>, ms: seq<Message>, fromStartup: bool, hooks: Hooks): (r: (map<int, Dict>, seq<Message>))
    ensures forall m :: m in r.1 ==> m in ms && m.triggers.ParsedTriggers? && MessageValid(m, fromStartup, hooks)
    ensures forall i :: (0 <= i < |ms| && ms[i].triggers.ParsedTriggers? && ms[i].repeatTimes <= 0 &&
                         MessageValid(ms[i], fromStartup, hooks)) ==> ms[i] in r.1
    decreases |ms|
  {
    if |ms| == 0 then (snapshots, [])
    else
      var (snaps, show) := CheckOne(snapshots, ms[0], fromStartup, hooks);
      var (rest, shown) := CheckAll(snaps, ms[1..], fromStartup, hooks);
      assert forall i :: 1 <= i < |ms| ==> ms[i] == ms[1..][i - 1];
      (rest, if show then [ms[0]] + shown else shown)
  }

  /** The messages of `ms` that satisfy `p`, in order. */
  function Filter(ms: seq<Message>, p: Message -> bool): (r: seq<Message>)
    ensures forall m :: m in r <==> m in ms && p(m)
    ensures |r| <= |ms|
  {
    if |ms| == 0 then []
    else if p(ms[0]) then [ms[0]] + Filter(ms[1..], p)
    else Filter(ms[1..], p)
  }

  /** The in-app messages: the type says in-app and there is an in-app payload. */
  predicate IsInApp(m: Message)
  {
    m.messageType == InAppMessageType && m.inAppMessage.Some?
  }

  /** The push messages: the type says push and there is a push payload. */
  predicate IsPush(m: Message)
  {
    m.messageType == PushType && m.push.Some?
  }

  /** A message goes to at most one of the two lists. */
  lemma SplitDisjoint(m: Message)
    ensures !(IsInApp(m) && IsPush(m))
  {
  }

  /**
   * `checkMessages(fromStartup:)`. The stored messages whose triggers are
   * valid are shown: the in-app ones are presented, only when the application
   * is not in the background and with the messages plugin registered, and the push ones go to
   * `showPushNotifications(messages:)`.
   */
  function CheckMessages(st: State, fromStartup: bool, env: Env): (r: State)
    ensures r.messagesFile == st.messagesFile && r.pending == st.pending
    ensures r.lastLatitude == st.lastLatitude && r.lastLongitude == st.lastLongitude
    ensures r.checkTimers == st.checkTimers && r.delayedChecks == st.delayedChecks
    ensures SavedMessages(st.messagesFile) == [] ==> r == st
    ensures st.presented <= r.presented && |r.presented| <= |st.presented| + 1
    ensures |r.presented| == |st.presented| + 1 ==>
      env.notBackground && env.messagesPlugin && |r.presented[|st.presented|]| > 0 &&
      forall m :: m in r.presented[|st.presented|] ==> IsInApp(m) && m in SavedMessages(st.messagesFile)
    ensures |r.presented| == |st.presented| + 1 ==>
      forall m :: m in r.presented[|st.presented|] ==> m.triggers.ParsedTriggers? && MessageValid(m, fromStartup, env.hooks)
    ensures var saved := SavedMessages(st.messagesFile);
      forall i :: (0 <= i < |saved| && IsInApp(saved[i]) && saved[i].triggers.ParsedTriggers? && saved[i].repeatTimes <= 0 &&
                   MessageValid(saved[i], fromStartup, env.hooks) && env.notBackground && env.messagesPlugin) ==>
        |r.presented| == |st.presented| + 1 && saved[i] in r.presented[|st.presented|]
    ensures var saved := SavedMessages(st.messagesFile);
      saved != [] ==>
        var checked := CheckAll(st.snapshots, saved, fromStartup, env.hooks);
        var pushes := Filter(checked.1, IsPush);
        r.snapshots == checked.0 &&
        r.push == if |pushes| != 0 then ShowPushNotifications(st.push, pushes, env.device, env.accepted) else st.push
  {
    var saved := SavedMessages(st.messagesFile);
    if |saved| == 0 then st
    else
      var (snapshots, toShow) := CheckAll(st.snapshots, saved, fromStartup, env.hooks);
      var inApp := Filter(toShow, IsInApp);
      var pushes := Filter(toShow, IsPush);
      var presented := if |inApp| != 0 && env.notBackground && env.messagesPlugin then st.presented + [inApp] else st.presented;
      var push := if |pushes| != 0 then ShowPushNotifications(st.push, pushes, env.device, env.accepted) else st.push;
      st.(snapshots := snapshots, presented := presented, push := push)
  }

  /** The check keeps the push state consistent. */
  lemma CheckKeepsPushConsistent(st: State, fromStartup: bool, env: Env)
    requires Consistent(st.push)
    ensures Consistent(CheckMessages(st, fromStartup, env).push)
  {
    var saved := SavedMessages(st.messagesFile);
    if |saved| != 0 {
      var toShow := CheckAll(st.snapshots, saved, fromStartup, env.hooks).1;
      var pushes := Filter(toShow, IsPush);
      if |pushes| != 0 {
        ShowAllConsistent(st.push, MessagesToShow(pushes, st.push.shown), env.device, env.accepted);
      }
    }
  }
}
