/**
 * The `[String: Any]` dictionaries the system decodes from the API and writes
 * to and reads from disk. A key whose value was assigned `nil` is absent.
 * Reading `d[key] as? T ?? default` is `XAt(d, key).GetOr(default)`.
 */
module Json {
  import opened Wrappers

  datatype JValue =
    | JString(s: string)
    | JInt(i: int)
    | JReal(r: real)
    | JBool(b: bool)
    | JArray(items: seq<JValue>)
    | JObject(fields: map<string, JValue>)
      /** A string holding the JSON text of `source`; the text itself is kept symbolic. */
    | JSerialized(source: JValue)
      /** A value that JSON serialisation rejects (a date, an image, ...). */
    | JForeign

  type Dict = map<string, JValue>

  /** `JSONSerialization` accepts the value. */
  predicate Serialisable(v: JValue)
  {
    match v
    case JArray(items) => forall i :: 0 <= i < |items| ==> Serialisable(items[i])
    case JObject(fields) => forall k :: k in fields ==> Serialisable(fields[k])
    case JSerialized(source) => Serialisable(source)
    case JForeign => false
    case _ => true
  }

  predicate SerialisableDict(d: Dict)
  {
    Serialisable(JObject(d))
  }

  /** `d[key] as? String` */
  function StringAt(d: Dict, key: string): Option<string>
  {
    if key in d && d[key].JString? then Some(d[key].s) else None
  }

  /** `d[key] as? Int` (also used for times, which the model keeps integral) */
  function IntAt(d: Dict, key: string): Option<int>
  {
    if key in d && d[key].JInt? then Some(d[key].i) else None
  }

  /** `d[key] as? Float` or `as? NSNumber`: any JSON number */
  function NumberAt(d: Dict, key: string): Option<real>
  {
    if key in d && d[key].JReal? then Some(d[key].r)
    else if key in d && d[key].JInt? then Some(d[key].i as real)
    else None
  }

  /** `d[key] as? Bool` */
  function BoolAt(d: Dict, key: string): Option<bool>
  {
    if key in d && d[key].JBool? then Some(d[key].b) else None
  }

  /** `d[key] as? [String: Any]` */
  function DictAt(d: Dict, key: string): Option<Dict>
  {
    if key in d && d[key].JObject? then Some(d[key].fields) else None
  }

  /** True when every element of `items` is a dictionary. */
  predicate AllObjects(items: seq<JValue>)
  {
    forall i :: 0 <= i < |items| ==> items[i].JObject?
  }

  function Fields(items: seq<JValue>): (r: seq<Dict>)
    requires AllObjects(items)
    ensures |r| == |items|
    ensures forall i :: 0 <= i < |items| ==> items[i] == JObject(r[i])
  {
    seq(|items|, i requires 0 <= i < |items| => items[i].fields)
  }

  function Objects(ds: seq<Dict>): (r: seq<JValue>)
    ensures |r| == |ds|
    ensures AllObjects(r)
    ensures forall i :: 0 <= i < |ds| ==> r[i] == JObject(ds[i])
  {
    seq(|ds|, i requires 0 <= i < |ds| => JObject(ds[i]))
  }

  /** `d[key] as? [[String: Any]]`: fails as a whole if one element is not a dictionary */
  function DictListAt(d: Dict, key: string): Option<seq<Dict>>
  {
    if key in d && d[key].JArray? && AllObjects(d[key].items) then Some(Fields(d[key].items)) else None
  }

  /** `d[key] as? [String]` */
  function StringListAt(d: Dict, key: string): Option<seq<string>>
  {
    if key in d && d[key].JArray? && forall i :: 0 <= i < |d[key].items| ==> d[key].items[i].JString?
    then Some(seq(|d[key].items|, i requires 0 <= i < |d[key].items| => d[key].items[i].s))
    else None
  }

  /** A list of dictionaries reads back as the same list. */
  lemma DictListRoundTrip(d: Dict, key: string, ds: seq<Dict>)
    requires key in d && d[key] == JArray(Objects(ds))
    ensures DictListAt(d, key) == Some(ds)
  {
    assert Fields(Objects(ds)) == ds;
  }
}

/**
 * Dates and optional values in the stored dictionaries. A record is written
 * as one literal of optional values: a property assigned `nil` is left out
 * (`if let v { d[key] = v }`).
 */
module JsonDates {
  import opened Wrappers
  import opened Clock
  import opened Json

  /** A date as written: `date.timeIntervalSince1970`. */
  function DateValue(t: Time): JValue
  {
    JReal(SecondsSince1970(t))
  }

  /** `(d[key] as? TimeInterval).map(Date.init(timeIntervalSince1970:))` */
  function DateAt(d: Dict, key: string): Option<Time>
  {
    match NumberAt(d, key)
    case None => None
    case Some(x) => Some(DateFromSeconds(x))
  }

  /** The dictionary holding exactly the present values of `fields`. */
  function Record(fields: map<string, Option<JValue>>): Dict
  {
    map k | k in fields && fields[k].Some? :: fields[k].value
  }

  /** A key of a record is present exactly when its value is, and holds that value. */
  lemma RecordRead(fields: map<string, Option<JValue>>, key: string)
    ensures key in Record(fields) <==> key in fields && fields[key].Some?
    ensures key in Record(fields) ==> Record(fields)[key] == fields[key].value
  {
  }

  function OptString(s: Option<string>): (v: Option<JValue>)
    ensures v.Some? <==> s.Some?
    ensures s.Some? ==> v.value == JString(s.value)
  {
    if s.Some? then Some(JString(s.value)) else None
  }

  function OptInt(n: Option<int>): (v: Option<JValue>)
    ensures v.Some? <==> n.Some?
    ensures n.Some? ==> v.value == JInt(n.value)
  {
    if n.Some? then Some(JInt(n.value)) else None
  }

  function OptDict(m: Option<Dict>): (v: Option<JValue>)
    ensures v.Some? <==> m.Some?
    ensures m.Some? ==> v.value == JObject(m.value)
  {
    if m.Some? then Some(JObject(m.value)) else None
  }

  /** An optional date as written; it reads back as the same date. */
  function OptDate(t: Option<Time>): (v: Option<JValue>)
    ensures v.Some? <==> t.Some?
    ensures t.Some? ==> v.value == DateValue(t.value) && DateFromSeconds(v.value.r) == t.value
  {
    if t.Some? then DateSecondsRoundTrip(t.value); Some(DateValue(t.value)) else None
  }

  /** `d` holds `v` under `key`, and lacks the key when `v` is absent. */
  predicate Holds(d: Dict, key: string, v: Option<JValue>)
  {
    (key in d <==> v.Some?) && (v.Some? ==> d[key] == v.value)
  }

}
