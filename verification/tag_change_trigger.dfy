/** A tag-change trigger: completes when a tag becomes equal to, or different from, a value. */
module TagChangeTriggers {
  import opened Wrappers
  import opened Clock
  import opened Json
  import opened JsonDates
  import opened Triggers

  /** The API operator: "=" is equality, any other string is inequality. */
  function OperatorFromApi(s: string): (op: TagOperator)
    ensures op == Equal <==> s == "="
  {
    if s == "=" then Equal else NotEqual
  }

  /** `MBTagChangeOperator.rawValue` */
  function OperatorRaw(op: TagOperator): int
  {
    match op
    case Equal => 0
    case NotEqual => 1
  }

  /** `MBTagChangeOperator(rawValue:) ?? .equal` */
  function OperatorFromRaw(raw: int): (op: TagOperator)
    ensures raw == 1 <==> op == NotEqual
    ensures OperatorRaw(op) == raw || (raw != 0 && raw != 1 && op == Equal)
  {
    if raw == 1 then NotEqual else Equal
  }

  /** `MBTagChangeTrigger(dictionary:)` */
  function TagChangeFromApi(d: Dict): (t: Trigger)
    ensures t.TagChange? && t.id == RecordId(d) && t.completionDate.None?
    ensures t.tag == StringAt(d, "tag").GetOr("") && t.value == StringAt(d, "value").GetOr("")
    ensures t.op == Equal <==> StringAt(d, "operator") == Some("=")
  {
    TagChange(RecordId(d), StringAt(d, "tag").GetOr(""), StringAt(d, "value").GetOr(""),
              OperatorFromApi(StringAt(d, "operator").GetOr("")), None)
  }

  /** `tagChanged(tag:value:)` at time `now`; a removed tag (`None`) compares as "". */
  function TagChanged(t: Trigger, tag: string, value: Option<string>, now: Time): (r: (Trigger, bool))
    requires t.TagChange?
    ensures tag != t.tag ==> r == (t, false)
    ensures tag == t.tag && t.op == Equal ==> (r.1 <==> value.GetOr("") == t.value)
    ensures tag == t.tag && t.op == NotEqual ==> (r.1 <==> value.GetOr("") != t.value)
    ensures r.1 ==> r.0 == TagChange(t.id, t.tag, t.value, t.op, Some(now))
    ensures !r.1 ==> r.0 == t
  {
    if tag != t.tag then (t, false)
    else
      var newValue := value.GetOr("");
      var satisfied := match t.op
        case Equal => newValue == t.value
        case NotEqual => newValue != t.value;
      if satisfied then (TagChange(t.id, t.tag, t.value, t.op, Some(now)), true) else (t, false)
  }

  /** A removal is handled exactly like setting the tag to "". */
  lemma RemovalIsEmptyValue(t: Trigger, tag: string, now: Time)
    requires t.TagChange?
    ensures TagChanged(t, tag, None, now) == TagChanged(t, tag, Some(""), now)
  {
  }

  /** For the trigger's own tag, exactly one of the two operators is satisfied by any value. */
  lemma OperatorsComplementary(t: Trigger, value: Option<string>, now: Time)
    requires t.TagChange?
    ensures
      var eq := TagChange(t.id, t.tag, t.value, Equal, t.completionDate);
      var ne := TagChange(t.id, t.tag, t.value, NotEqual, t.completionDate);
      TagChanged(eq, t.tag, value, now).1 != TagChanged(ne, t.tag, value, now).1
  {
  }

  /** `MBTagChangeTrigger.isValid(fromAppStartup:)` */
  predicate TagChangeIsValid(t: Trigger, now: Time)
    requires t.TagChange?
  {
    CompletedNotBefore(t.completionDate, now)
  }

  /** The fields a stored TagChange trigger writes, absent ones as `None`. */
  function TagChangeFields(t: Trigger): map<string, Option<JValue>>
    requires t.TagChange?
  {
    BaseFields(t.id, TagChangeType)["tag" := Some(JString(t.tag))]["value" := Some(JString(t.value))]
                 ["tagChangeOperator" := Some(JInt(OperatorRaw(t.op)))]
                 ["completionDate" := OptDate(t.completionDate)]
  }

  /** `MBTagChangeTrigger.toJsonDictionary()` */
  function TagChangeToRecord(t: Trigger): (d: Dict)
    requires t.TagChange?
    ensures RecordType(d) == TagChangeType
  {
    Record(TagChangeFields(t))
  }

  /** `MBTagChangeTrigger(fromJsonDictionary:)` */
  function TagChangeFromRecord(d: Dict): (t: Trigger)
    ensures t.TagChange? && t.id == RecordId(d)
    ensures IntAt(d, "tagChangeOperator").None? ==> t.op == Equal
  {
    TagChange(RecordId(d), StringAt(d, "tag").GetOr(""), StringAt(d, "value").GetOr(""),
              OperatorFromRaw(IntAt(d, "tagChangeOperator").GetOr(0)), DateAt(d, "completionDate"))
  }

  /** The stored record of a tag-change trigger reads back as the same trigger. */
  lemma TagChangeRoundTrip(t: Trigger)
    requires t.TagChange?
    ensures TagChangeFromRecord(TagChangeToRecord(t)) == t
  {
    var f := TagChangeFields(t);
    RecordRead(f, "id");
    RecordRead(f, "tag");
    RecordRead(f, "value");
    RecordRead(f, "tagChangeOperator");
    RecordRead(f, "completionDate");
  }
}
