/** A tag of the audience: a key that never changes and a value that may. */
module AudienceTags {

  datatype AudienceTag = AudienceTag(tag: string, value: string)

  /** `init(dictionary:)`: a missing key or value reads as "". */
  function TagFromDictionary(d: map<string, string>): (t: AudienceTag)
    ensures "tag" in d ==> t.tag == d["tag"]
    ensures "tag" !in d ==> t.tag == ""
    ensures "value" in d ==> t.value == d["value"]
    ensures "value" !in d ==> t.value == ""
  {
    AudienceTag(if "tag" in d then d["tag"] else "", if "value" in d then d["value"] else "")
  }

  /** `toDictionary()` */
  function TagToDictionary(t: AudienceTag): (d: map<string, string>)
    ensures d.Keys == {"tag", "value"}
    ensures d["tag"] == t.tag && d["value"] == t.value
  {
    map["tag" := t.tag, "value" := t.value]
  }

  /** Assigning `value`: the tag key is immutable. */
  function WithValue(t: AudienceTag, value: string): (r: AudienceTag)
    ensures r.tag == t.tag && r.value == value
  {
    t.(value := value)
  }

  lemma TagDictionaryRoundTrip(t: AudienceTag)
    ensures TagFromDictionary(TagToDictionary(t)) == t
  {
  }
}

/**
 * The audience manager's persistent data: the ordered list of tags and the
 * session counter with the start dates of the latest sessions. Both live in
 * the user-defaults store, modelled as plain values here.
 */
module Audience {
  import opened Wrappers
  import opened Clock
  import opened Decimal
  import opened AudienceTags

  // ---------------------------------------------------------------- tags

  /** The tag list as stored: `None` until the first save. */
  type TagStore = Option<seq<map<string, string>>>

  /** A tag-change notification sent to the other plugins; `value` is `None` for a removal. */
  datatype TagChange = TagChange(tag: string, value: Option<string>)

  /** The outcome of a tag operation: the new store and the notification sent, if any. */
  datatype TagUpdate = TagUpdate(store: TagStore, notified: Option<TagChange>)

  /** `getTags()` */
  function GetTags(store: TagStore): Option<seq<AudienceTag>>
  {
    match store
    case None => None
    case Some(ds) => Some(seq(|ds|, i requires 0 <= i < |ds| => TagFromDictionary(ds[i])))
  }

  /** `saveNewTags(tags:)` */
  function SaveTags(tags: seq<AudienceTag>): TagStore
  {
    Some(seq(|tags|, i requires 0 <= i < |tags| => TagToDictionary(tags[i])))
  }

  /** `firstIndex(where: { $0.tag == key })` */
  function FirstIndexOf(tags: seq<AudienceTag>, key: string): (r: Option<nat>)
    ensures r.Some? ==> r.value < |tags| && tags[r.value].tag == key
    ensures r.Some? ==> forall j :: 0 <= j < r.value ==> tags[j].tag != key
    ensures r.None? ==> forall j :: 0 <= j < |tags| ==> tags[j].tag != key
  {
    if |tags| == 0 then None
    else if tags[0].tag == key then Some(0)
    else match FirstIndexOf(tags[1..], key)
      case None => None
      case Some(i) => Some(i + 1)
  }

  /** `setTag(_:value:)` */
  function SetTag(store: TagStore, key: string, value: string): (r: TagUpdate)
    ensures
      var tags := GetTags(store).GetOr([]);
      match FirstIndexOf(tags, key)
      case None =>
        && GetTags(r.store) == Some(tags + [AudienceTag(key, value)])
        && r.notified == Some(TagChange(key, Some(value)))
      case Some(i) =>
        if tags[i].value == value then r == TagUpdate(store, None)
        else
          && GetTags(r.store) == Some(tags[i := AudienceTag(key, value)])
          && r.notified == Some(TagChange(key, Some(value)))
  {
    var tags := GetTags(store).GetOr([]);
    match FirstIndexOf(tags, key)
    case None =>
      var tags' := tags + [AudienceTag(key, value)];
      TagsRoundTrip(tags');
      TagUpdate(SaveTags(tags'), Some(TagChange(key, Some(value))))
    case Some(i) =>
      if tags[i].value != value then
        var tags' := tags[i := WithValue(tags[i], value)];
        TagsRoundTrip(tags');
        TagUpdate(SaveTags(tags'), Some(TagChange(key, Some(value))))
      else TagUpdate(store, None)
  }

  /** `removeTag(_:)`: saves and notifies even when no tag had that key. */
  function RemoveTag(store: TagStore, key: string): (r: TagUpdate)
    ensures r.notified == Some(TagChange(key, None))
    ensures
      var tags := GetTags(store).GetOr([]);
      match FirstIndexOf(tags, key)
      case None => GetTags(r.store) == Some(tags)
      case Some(i) => GetTags(r.store) == Some(tags[..i] + tags[i + 1..])
  {
    var tags := GetTags(store).GetOr([]);
    var tags' := match FirstIndexOf(tags, key)
      case None => tags
      case Some(i) => tags[..i] + tags[i + 1..];
    TagsRoundTrip(tags');
    TagUpdate(SaveTags(tags'), Some(TagChange(key, None)))
  }

  lemma TagsRoundTrip(tags: seq<AudienceTag>)
    ensures GetTags(SaveTags(tags)) == Some(tags)
  {
    var back := GetTags(SaveTags(tags)).value;
    assert |back| == |tags|;
    forall i | 0 <= i < |tags|
      ensures back[i] == tags[i]
    {
      TagDictionaryRoundTrip(tags[i]);
    }
    assert back == tags;
  }

  /** After setting a key, the first entry with that key holds the new value. */
  lemma {:induction false} SetTagThenGet(store: TagStore, key: string, value: string)
    ensures
      var tags' := GetTags(SetTag(store, key, value).store).GetOr([]);
      var i := FirstIndexOf(tags', key);
      i.Some? && tags'[i.value].value == value
  {
    var tags := GetTags(store).GetOr([]);
    match FirstIndexOf(tags, key)
    case None =>
      NoKeyPrefix(tags, key, value);
    case Some(i) =>
      if tags[i].value != value {
        FirstIndexSame(tags, key, i, value);
      }
  }

  lemma NoKeyPrefix(tags: seq<AudienceTag>, key: string, value: string)
    requires FirstIndexOf(tags, key).None?
    ensures FirstIndexOf(tags + [AudienceTag(key, value)], key) == Some(|tags|)
  {
    var tags' := tags + [AudienceTag(key, value)];
    var j := FirstIndexOf(tags', key);
    assert tags'[|tags|].tag == key;
  }

  lemma FirstIndexSame(tags: seq<AudienceTag>, key: string, i: nat, value: string)
    requires FirstIndexOf(tags, key) == Some(i)
    ensures FirstIndexOf(tags[i := AudienceTag(key, value)], key) == Some(i)
  {
    var tags' := tags[i := AudienceTag(key, value)];
    var j := FirstIndexOf(tags', key);
    assert tags'[i].tag == key;
  }

  // ------------------------------------------------------------ sessions

  /** The prefix of the user-defaults key holding a session's start date. */
  const SessionDatePrefix: string := "com.mumble.mburger.audience.sessionTime.session"

  /** The session counter and the session start dates, keyed as in the user-defaults store. */
  datatype Sessions = Sessions(counter: int, dates: map<string, Time>)

  /** `sessionDateKey(forSession:)` */
  function SessionDateKey(session: int): string
  {
    SessionDatePrefix + IntString(session)
  }

  /** Distinct sessions keep their dates under distinct keys. */
  lemma SessionDateKeyInjective(a: int, b: int)
    ensures SessionDateKey(a) == SessionDateKey(b) <==> a == b
  {
    if SessionDateKey(a) == SessionDateKey(b) {
      assert IntString(a) == SessionDateKey(a)[|SessionDatePrefix|..];
      assert IntString(b) == SessionDateKey(b)[|SessionDatePrefix|..];
      IntStringInjective(a, b);
    }
  }

  /** `currentSession` */
  function CurrentSession(s: Sessions): int
  {
    s.counter
  }

  /** `startSessionDate(forSession:)` */
  function StartSessionDate(s: Sessions, session: int): Option<Time>
  {
    var key := SessionDateKey(session);
    if key in s.dates then Some(s.dates[key]) else None
  }

  /** `clearOldSessionValues()`: forgets the sessions two to four before the current one. */
  function ClearOldSessionValues(s: Sessions): Sessions
  {
    var current := s.counter;
    var stale := set k | k in {current - 2, current - 3, current - 4} && k >= 0 :: SessionDateKey(k);
    s.(dates := s.dates - stale)
  }

  /** `incrementSession()` at time `now` (the session-duration bookkeeping is not modelled). */
  function IncrementSession(s: Sessions, now: Time): (r: Sessions)
    ensures CurrentSession(r) == CurrentSession(s) + 1
  {
    var newSession := s.counter + 1;
    var recorded := s.(counter := newSession, dates := s.dates[SessionDateKey(newSession) := now]);
    ClearOldSessionValues(recorded)
  }

  /**
   * After a new session starts, it has the start date `now`, the previous
   * session keeps its date, sessions two to four back (when not negative)
   * have none, and every other session is unaffected.
   */
  lemma IncrementSessionDates(s: Sessions, now: Time, k: int)
    ensures
      var r := IncrementSession(s, now);
      var c := r.counter;
      && (k == c ==> StartSessionDate(r, k) == Some(now))
      && (k == c - 1 ==> StartSessionDate(r, k) == StartSessionDate(s, k))
      && (c - 4 <= k <= c - 2 && k >= 0 ==> StartSessionDate(r, k) == None)
      && (k != c && (k < c - 4 || k > c - 2 || k < 0) ==> StartSessionDate(r, k) == StartSessionDate(s, k))
  {
    var c := s.counter + 1;
    var stale := set j | j in {c - 2, c - 3, c - 4} && j >= 0 :: SessionDateKey(j);
    if c - 4 <= k <= c - 2 && k >= 0 {
      assert SessionDateKey(k) in stale;
    } else {
      if SessionDateKey(k) in stale {
        var j :| j in {c - 2, c - 3, c - 4} && j >= 0 && SessionDateKey(j) == SessionDateKey(k);
        SessionDateKeyInjective(j, k);
      }
      SessionDateKeyInjective(k, c);
    }
  }
}
