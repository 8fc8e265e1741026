/**
 * Local push notifications of automation messages. The state is the list of
 * push ids already shown (kept in the user defaults) and the pending requests
 * of the notification centre. The notification centre's authorisation, URL
 * parsing, the media download and the centre's acceptance of a request are
 * parameters.
 */
module PushNotifications {
  import opened Wrappers
  import opened Json
  import opened Decimal
  import opened Messages

  const IdentifierPrefix: string := "mburger.automation.push."

  /** `notificationIdentifier(forMessage:)`: the prefix followed by the message id in decimal. */
  function NotificationIdentifier(m: Message): (id: string)
    ensures |id| > |IdentifierPrefix| && id[..|IdentifierPrefix|] == IdentifierPrefix
  {
    IdentifierPrefix + IntString(m.id)
  }

  /** Messages with different ids get different identifiers, so one message's request never replaces another's. */
  lemma IdentifierInjective(a: Message, b: Message)
    requires NotificationIdentifier(a) == NotificationIdentifier(b)
    ensures a.id == b.id
  {
    var n := |IdentifierPrefix|;
    assert IntString(a.id) == NotificationIdentifier(a)[n..];
    assert IntString(b.id) == NotificationIdentifier(b)[n..];
    IntStringInjective(a.id, b.id);
  }

  // ---------------------------------------------------------------- shown set

  predicate NoDuplicates(s: seq<string>)
  {
    forall i, j :: 0 <= i < j < |s| ==> s[i] != s[j]
  }

  /** `messageHasBeenShowed(message:)`: a message without a push payload is never shown. */
  predicate HasBeenShown(shown: seq<string>, m: Message)
  {
    m.push.Some? && m.push.value.id in shown
  }

  /** `setMessageShowed(message:)`: appends the push id unless it is already there. */
  function SetShown(shown: seq<string>, m: Message): (r: seq<string>)
    ensures m.push.None? ==> r == shown
    ensures m.push.Some? ==> r == if m.push.value.id in shown then shown else shown + [m.push.value.id]
  {
    match m.push
    case None => shown
    case Some(p) => if p.id in shown then shown else shown + [p.id]
  }

  /** Marking a message shown makes it shown exactly when it has a push payload, and marking it again changes nothing. */
  lemma SetShownProperties(shown: seq<string>, m: Message)
    ensures HasBeenShown(SetShown(shown, m), m) <==> m.push.Some?
    ensures SetShown(SetShown(shown, m), m) == SetShown(shown, m)
    ensures NoDuplicates(shown) ==> NoDuplicates(SetShown(shown, m))
    ensures forall x :: x in shown ==> x in SetShown(shown, m)
  {
  }

  /** `showedMessages.index(of:)`: the first position of `x`. */
  function IndexOf(s: seq<string>, x: string): (r: Option<nat>)
    ensures r.Some? <==> x in s
    ensures r.Some? ==> r.value < |s| && s[r.value] == x && x !in s[..r.value]
  {
    if |s| == 0 then None
    else if s[0] == x then Some(0)
    else match IndexOf(s[1..], x)
      case None => None
      case Some(i) =>
        assert s[..i + 1] == [s[0]] + s[1..][..i];
        Some(i + 1)
  }

  /** `unsetMessageShowed(message:)`: removes the first occurrence of the push id, if any. */
  function UnsetShown(shown: seq<string>, m: Message): (r: seq<string>)
    ensures m.push.None? || m.push.value.id !in shown ==> r == shown
    ensures m.push.Some? && m.push.value.id in shown ==>
              |r| == |shown| - 1 && multiset(r) == multiset(shown) - multiset{m.push.value.id}
  {
    match m.push
    case None => shown
    case Some(p) =>
      match IndexOf(shown, p.id)
      case None => shown
      case Some(i) =>
        assert shown == shown[..i] + [shown[i]] + shown[i + 1..];
        shown[..i] + shown[i + 1..]
  }

  /** With no duplicates, unsetting a message leaves it not shown, keeps every other id and keeps the list free of duplicates. */
  lemma UnsetShownClears(shown: seq<string>, m: Message)
    requires NoDuplicates(shown)
    ensures !HasBeenShown(UnsetShown(shown, m), m)
    ensures NoDuplicates(UnsetShown(shown, m))
    ensures forall x :: x in shown && (m.push.None? || x != m.push.value.id) ==> x in UnsetShown(shown, m)
  {
    var r := UnsetShown(shown, m);
    if m.push.Some? && m.push.value.id in shown {
      var id := m.push.value.id;
      var i := IndexOf(shown, id).value;
      assert r == shown[..i] + shown[i + 1..];
      forall k | 0 <= k < |r|
        ensures r[k] != id
      {
        if k < i {
          assert r[k] == shown[k];
        } else {
          assert r[k] == shown[k + 1];
        }
      }
      forall x | x in shown && x != id
        ensures x in r
      {
        var k :| 0 <= k < |shown| && shown[k] == x;
        if k < i {
          assert r[k] == x;
        } else {
          assert r[k - 1] == x;
        }
      }
    }
  }

  /** Unsetting undoes marking a message that had not been shown. */
  lemma UnsetAfterSet(shown: seq<string>, m: Message)
    requires !HasBeenShown(shown, m)
    ensures UnsetShown(SetShown(shown, m), m) == shown
  {
    if m.push.Some? {
      var s := shown + [m.push.value.id];
      assert IndexOf(s, m.push.value.id) == Some(|shown|);
      assert s[..|shown|] == shown;
    }
  }

  // ----------------------------------------------------------------- content

  datatype Sound = DefaultSound | NamedSound(name: string)

  /** The notification content built from a push payload; media attachments are not modelled. */
  datatype Content = Content(
    title: string, body: string, badge: int, launchImage: Option<string>, sound: Sound,
    userInfo: Option<Dict>)

  /** `UNMutableNotificationContent` filled from the payload: the badge defaults to 1 and the sound to the default one. */
  function ContentOf(p: PushMessage): (c: Content)
    ensures c.title == p.title && c.body == p.body && c.launchImage == p.launchImage && c.userInfo == p.userInfo
    ensures c.badge == p.badge.GetOr(1)
    ensures c.sound.NamedSound? <==> p.sound.Some?
    ensures p.sound.Some? ==> c.sound.name == p.sound.value
  {
    Content(p.title, p.body, p.badge.GetOr(1), p.launchImage,
            match p.sound { case Some(s) => NamedSound(s) case None => DefaultSound }, p.userInfo)
  }

  /**
   * What the device answers: whether notifications are authorised, which
   * strings `URL(string:)` accepts, and whether a media download yields a file.
   */
  datatype Device = Device(authorized: bool, isUrl: string -> bool, downloads: bool)

  /** `userInfo["media_url"] as? String` when it is a URL: the media to download before sending. */
  function MediaUrl(userInfo: Option<Dict>, d: Device): (r: Option<string>)
    ensures r.Some? ==> userInfo.Some? && StringAt(userInfo.value, "media_url") == r && d.isUrl(r.value)
    ensures r.None? && userInfo.Some? && StringAt(userInfo.value, "media_url").Some? ==>
              !d.isUrl(StringAt(userInfo.value, "media_url").value)
  {
    match userInfo
    case None => None
    case Some(info) =>
      match StringAt(info, "media_url")
      case None => None
      case Some(url) => if d.isUrl(url) then Some(url) else None
  }

  /**
   * `showPushNotification(message:)`: the content handed to `sendPush`, if it
   * is reached. It is not reached without a push payload, without
   * authorisation, or when a media download yields no file (the download's
   * completion is then never called).
   */
  function ShowPush(m: Message, d: Device): (r: Option<Content>)
    ensures r.Some? <==> m.push.Some? && d.authorized && (MediaUrl(m.push.value.userInfo, d).Some? ==> d.downloads)
    ensures r.Some? ==> r.value == ContentOf(m.push.value)
  {
    match m.push
    case None => None
    case Some(p) =>
      if !d.authorized then None
      else if MediaUrl(p.userInfo, d).Some? && !d.downloads then None
      else Some(ContentOf(p))
  }

  // ---------------------------------------------------------------- requests

  /** When a notification fires: 0.1 s from now, or after an interval in seconds. */
  datatype Delay = Immediately | AfterSeconds(seconds: real)

  datatype Request = Request(identifier: string, content: Content, delay: Delay)

  /** The shown list in the user defaults and the pending requests of the notification centre. */
  datatype PushState = PushState(shown: seq<string>, pending: seq<Request>)

  predicate HasPending(pending: seq<Request>, id: string)
  {
    exists i :: 0 <= i < |pending| && pending[i].identifier == id
  }

  /** No two pending requests share an identifier. */
  predicate UniquePending(pending: seq<Request>)
  {
    forall i, j :: 0 <= i < j < |pending| ==> pending[i].identifier != pending[j].identifier
  }

  predicate Consistent(st: PushState)
  {
    NoDuplicates(st.shown) && UniquePending(st.pending)
  }

  /**
   * The trigger of the request: 0.1 s when `sendAfterDays` is 0, otherwise
   * the interval from now to the same time `sendAfterDays` days later.
   */
  function PushDelay(m: Message): (r: Delay)
    ensures r.Immediately? <==> m.sendAfterDays == 0
    ensures r.AfterSeconds? ==> r.seconds == (m.sendAfterDays * 86_400) as real
  {
    if m.sendAfterDays == 0 then Immediately else AfterSeconds((m.sendAfterDays * 86_400) as real)
  }

  /**
   * `sendPush(id:message:content:)`. Nothing happens when a request with the
   * identifier is pending. Otherwise the request is submitted, added to the
   * pending ones when the centre accepts it, and the message is marked shown
   * either way.
   */
  function SendPush(st: PushState, id: string, m: Message, c: Content, accepted: bool): (r: PushState)
    ensures HasPending(st.pending, id) ==> r == st
    ensures !HasPending(st.pending, id) ==> r.shown == SetShown(st.shown, m)
    ensures !HasPending(st.pending, id) && accepted ==> r.pending == st.pending + [Request(id, c, PushDelay(m))]
    ensures !accepted ==> r.pending == st.pending
  {
    if HasPending(st.pending, id) then st
    else
      var pending := if accepted then st.pending + [Request(id, c, PushDelay(m))] else st.pending;
      PushState(SetShown(st.shown, m), pending)
  }

  /** Sending keeps the shown list free of duplicates and never leaves two pending requests with one identifier. */
  lemma SendPushConsistent(st: PushState, id: string, m: Message, c: Content, accepted: bool)
    requires Consistent(st)
    ensures Consistent(SendPush(st, id, m, c, accepted))
  {
    SetShownProperties(st.shown, m);
    var r := SendPush(st, id, m, c, accepted);
    if !HasPending(st.pending, id) && accepted {
      forall i, j | 0 <= i < j < |r.pending|
        ensures r.pending[i].identifier != r.pending[j].identifier
      {
        if j == |st.pending| {
          assert r.pending[i] == st.pending[i];
        }
      }
    }
  }

  /** The request of one message, as `showPushNotification` and `sendPush` handle it. */
  function ShowOne(st: PushState, m: Message, d: Device, accepted: string -> bool): (r: PushState)
    ensures ShowPush(m, d).None? ==> r == st
  {
    match ShowPush(m, d)
    case None => st
    case Some(c) =>
      var id := NotificationIdentifier(m);
      SendPush(st, id, m, c, accepted(id))
  }

  /** The requests of a list of messages, handled in order. */
  function ShowAll(st: PushState, ms: seq<Message>, d: Device, accepted: string -> bool): PushState
    decreases |ms|
  {
    if |ms| == 0 then st else ShowAll(ShowOne(st, ms[0], d, accepted), ms[1..], d, accepted)
  }

  /** Handling any list of messages keeps the state consistent. */
  lemma {:induction false} ShowAllConsistent(st: PushState, ms: seq<Message>, d: Device, accepted: string -> bool)
    requires Consistent(st)
    ensures Consistent(ShowAll(st, ms, d, accepted))
    decreases |ms|
  {
    if |ms| > 0 {
      var c := ShowPush(ms[0], d);
      if c.Some? {
        var id := NotificationIdentifier(ms[0]);
        SendPushConsistent(st, id, ms[0], c.value, accepted(id));
      }
      ShowAllConsistent(ShowOne(st, ms[0], d, accepted), ms[1..], d, accepted);
    }
  }

  /** Once a message has been handled with a pending request or a sent one, it stays pending or shown. */
  lemma ShowOneRecords(st: PushState, m: Message, d: Device, accepted: string -> bool)
    requires ShowPush(m, d).Some?
    ensures var r := ShowOne(st, m, d, accepted);
      HasPending(r.pending, NotificationIdentifier(m)) || HasBeenShown(r.shown, m)
  {
    var id := NotificationIdentifier(m);
    if !HasPending(st.pending, id) {
      SetShownProperties(st.shown, m);
    }
  }

  /** Every message that has not been shown, among those handed to `showPushNotifications`. */
  function Unshown(ms: seq<Message>, shown: seq<string>): (r: seq<Message>)
    ensures |r| == 0 <==> forall i :: 0 <= i < |ms| ==> HasBeenShown(shown, ms[i])
  {
    if |ms| == 0 then []
    else if HasBeenShown(shown, ms[0]) then Unshown(ms[1..], shown)
    else [ms[0]] + Unshown(ms[1..], shown)
  }

  /**
   * `showPushNotifications(messages:)`: the messages that are handed on. The
   * filter by type is overwritten by the filter on the shown list, and the
   * loop runs over the whole input: every message is handed on as soon as one
   * has not been shown.
   */
  function MessagesToShow(ms: seq<Message>, shown: seq<string>): (r: seq<Message>)
    ensures (forall i :: 0 <= i < |ms| ==> HasBeenShown(shown, ms[i])) ==> r == []
    ensures (exists i :: 0 <= i < |ms| && !HasBeenShown(shown, ms[i])) ==> r == ms
  {
    if |Unshown(ms, shown)| == 0 then [] else ms
  }

  /** Messages already shown are handed on again, and so are in-app messages, once another message is new. */
  lemma ShownMessagesResent(ms: seq<Message>, shown: seq<string>, k: nat, n: nat)
    requires k < |ms| && n < |ms| && !HasBeenShown(shown, ms[k])
    ensures ms[n] in MessagesToShow(ms, shown)
  {
  }

  function ShowPushNotifications(st: PushState, ms: seq<Message>, d: Device, accepted: string -> bool): (r: PushState)
    ensures (forall i :: 0 <= i < |ms| ==> HasBeenShown(st.shown, ms[i])) ==> r == st
  {
    ShowAll(st, MessagesToShow(ms, st.shown), d, accepted)
  }

  // ------------------------------------------------------------- cancellation

  /** `removePendingNotificationRequests(withIdentifiers: [id])` */
  function RemovePending(pending: seq<Request>, id: string): (r: seq<Request>)
    ensures |r| <= |pending|
    ensures forall q :: q in r <==> q in pending && q.identifier != id
  {
    if |pending| == 0 then []
    else if pending[0].identifier == id then RemovePending(pending[1..], id)
    else [pending[0]] + RemovePending(pending[1..], id)
  }

  /** `cancelPushNotification(forMessage:)`: drops the pending request and the shown mark. */
  function CancelPushNotification(st: PushState, m: Message): (r: PushState)
    ensures !HasPending(r.pending, NotificationIdentifier(m))
    ensures forall q :: q in r.pending <==> q in st.pending && q.identifier != NotificationIdentifier(m)
    ensures r.shown == UnsetShown(st.shown, m)
  {
    var r := RemovePending(st.pending, NotificationIdentifier(m));
    assert forall i :: 0 <= i < |r| ==> r[i] in r;
    PushState(UnsetShown(st.shown, m), r)
  }

  /** After a cancellation the message is neither pending nor shown, so it can be sent again. */
  lemma CancelAllowsResend(st: PushState, m: Message, c: Content)
    requires Consistent(st)
    ensures var r := CancelPushNotification(st, m);
      !HasBeenShown(r.shown, m) && SendPush(r, NotificationIdentifier(m), m, c, true).pending ==
        r.pending + [Request(NotificationIdentifier(m), c, PushDelay(m))]
  {
    UnsetShownClears(st.shown, m);
  }
}
