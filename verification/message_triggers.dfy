/**
 * The triggers of a message: a list of triggers and the method (any or all)
 * that combines their validity.
 */
module MessageTriggers {
  import opened Wrappers
  import opened Json
  import opened Triggers
  import opened TriggerFactory

  /** `MBMessageTriggersMethod` */
  datatype Method = Any | All

  /** `MBMessageTriggersMethod.rawValue` */
  function MethodRaw(m: Method): int
  {
    match m
    case Any => 0
    case All => 1
  }

  /** `MBMessageTriggersMethod(rawValue:) ?? .all` */
  function MethodFromRaw(raw: int): (m: Method)
    ensures m == Any <==> raw == 0
    ensures MethodRaw(m) == raw || (raw != 0 && raw != 1 && m == All)
  {
    if raw == 0 then Any else All
  }

  /** The API method: "any" is any; "all", a missing and any other string are all. */
  function MethodFromApi(s: Option<string>): (m: Method)
    ensures m == Any <==> s == Some("any")
  {
    if s == Some("all") then All
    else if s == Some("any") then Any
    else All
  }

  datatype TriggerSet = TriggerSet(mode: Method, triggers: seq<Trigger>)

  /** `MBMessageTriggers(dictionary:)`: a triggers entry that is not a list of dictionaries gives no triggers. */
  function TriggerSetFromApi(d: Dict): (ts: TriggerSet)
    ensures ts.mode == MethodFromApi(StringAt(d, "method"))
    ensures DictListAt(d, "triggers").None? ==> ts.triggers == []
    ensures DictListAt(d, "triggers").Some? ==>
      var ds := DictListAt(d, "triggers").value;
      |ts.triggers| == |ds| && forall i :: 0 <= i < |ds| ==> ts.triggers[i] == TriggerFromApi(ds[i])
    ensures forall i :: 0 <= i < |ts.triggers| ==> WellFormed(ts.triggers[i])
  {
    var triggers := match DictListAt(d, "triggers")
      case None => []
      case Some(ds) => seq(|ds|, i requires 0 <= i < |ds| => TriggerFromApi(ds[i]));
    TriggerSet(MethodFromApi(StringAt(d, "method")), triggers)
  }

  /**
   * `isValid(message:fromAppStartup:)`: the loop over the triggers, where
   * `valid` is each trigger's own check. Any stops at the first valid
   * trigger, all at the first invalid one.
   */
  function IsValid(mode: Method, triggers: seq<Trigger>, valid: Trigger -> bool): (r: bool)
    ensures mode == Any ==> (r <==> exists i :: 0 <= i < |triggers| && valid(triggers[i]))
    ensures mode == All ==> (r <==> forall i :: 0 <= i < |triggers| ==> valid(triggers[i]))
  {
    if |triggers| == 0 then mode != Any
    else
      match mode
      case Any =>
        if valid(triggers[0]) then true
        else
          var rest := IsValid(mode, triggers[1..], valid);
          assert forall i :: 1 <= i < |triggers| ==> triggers[i] == triggers[1..][i - 1];
          rest
      case All =>
        if !valid(triggers[0]) then false
        else
          var rest := IsValid(mode, triggers[1..], valid);
          assert forall i :: 1 <= i < |triggers| ==> triggers[i] == triggers[1..][i - 1];
          rest
  }

  /** With no triggers, any is never satisfied and all always is. */
  lemma EmptyTriggerSet(valid: Trigger -> bool)
    ensures !IsValid(Any, [], valid) && IsValid(All, [], valid)
  {
  }

  /** `MBMessageTriggers(fromJsonDictionary:)`: a missing method is raw 0, that is any. */
  function TriggerSetFromRecord(d: Dict): (ts: TriggerSet)
    ensures IntAt(d, "method").None? ==> ts.mode == Any
    ensures ts.mode == MethodFromRaw(IntAt(d, "method").GetOr(0))
    ensures DictListAt(d, "triggers").None? ==> ts.triggers == []
  {
    var triggers := match DictListAt(d, "triggers")
      case None => []
      case Some(ds) => seq(|ds|, i requires 0 <= i < |ds| => TriggerFromRecord(ds[i]));
    TriggerSet(MethodFromRaw(IntAt(d, "method").GetOr(0)), triggers)
  }

  /** The stored records of a list of triggers. */
  function TriggerRecords(triggers: seq<Trigger>): (ds: seq<Dict>)
    ensures |ds| == |triggers|
    ensures forall i :: 0 <= i < |triggers| ==> ds[i] == TriggerToRecord(triggers[i])
  {
    seq(|triggers|, i requires 0 <= i < |triggers| => TriggerToRecord(triggers[i]))
  }

  /** `MBMessageTriggers.toJsonDictionary()` */
  function TriggerSetToRecord(ts: TriggerSet): (d: Dict)
    ensures d.Keys == {"method", "triggers"}
  {
    map["method" := JInt(MethodRaw(ts.mode)), "triggers" := JArray(Objects(TriggerRecords(ts.triggers)))]
  }

  /** Storing and reading back keeps the method and every trigger, in order. */
  lemma TriggerSetRoundTrip(ts: TriggerSet)
    requires forall i :: 0 <= i < |ts.triggers| ==> WellFormed(ts.triggers[i])
    ensures TriggerSetFromRecord(TriggerSetToRecord(ts)) == ts
  {
    var d := TriggerSetToRecord(ts);
    DictListRoundTrip(d, "triggers", TriggerRecords(ts.triggers));
    assert IntAt(d, "method") == Some(MethodRaw(ts.mode));
    var back := TriggerSetFromRecord(d);
    forall i | 0 <= i < |ts.triggers|
      ensures back.triggers[i] == ts.triggers[i]
    {
      TriggerRoundTrip(ts.triggers[i]);
    }
  }

  /** `triggers.first(where: { $0.id == id })` */
  function FirstWithId(triggers: seq<Trigger>, id: string): (r: Option<nat>)
    ensures r.Some? ==> r.value < |triggers| && triggers[r.value].id == id
    ensures r.Some? ==> forall j :: 0 <= j < r.value ==> triggers[j].id != id
    ensures r.None? ==> forall j :: 0 <= j < |triggers| ==> triggers[j].id != id
  {
    if |triggers| == 0 then None
    else if triggers[0].id == id then Some(0)
    else match FirstWithId(triggers[1..], id)
      case None => None
      case Some(i) => Some(i + 1)
  }

  /** The trigger a refreshed trigger becomes: merged with the first stored one of the same id, if any. */
  function Merged(current: seq<Trigger>, newTrigger: Trigger, updated: (Trigger, Trigger) -> Trigger): Trigger
  {
    match FirstWithId(current, newTrigger.id)
    case Some(j) => updated(current[j], newTrigger)
    case None => newTrigger
  }

  /**
   * `updateTriggers(newTriggers:)`, where `updated` is each trigger's
   * `updatedTrigger(newTrigger:)`. The result follows the incoming list and keeps
   * the method of the stored set, which the source returns as `self`.
   */
  function UpdateTriggers(current: TriggerSet, incoming: TriggerSet, updated: (Trigger, Trigger) -> Trigger): (r: TriggerSet)
    ensures r.mode == current.mode
    ensures |r.triggers| == |incoming.triggers|
    ensures forall i :: 0 <= i < |incoming.triggers| && FirstWithId(current.triggers, incoming.triggers[i].id).None? ==>
              r.triggers[i] == incoming.triggers[i]
    ensures forall i :: 0 <= i < |incoming.triggers| && FirstWithId(current.triggers, incoming.triggers[i].id).Some? ==>
              r.triggers[i] == updated(current.triggers[FirstWithId(current.triggers, incoming.triggers[i].id).value], incoming.triggers[i])
  {
    TriggerSet(current.mode, seq(|incoming.triggers|, i requires 0 <= i < |incoming.triggers| => Merged(current.triggers, incoming.triggers[i], updated)))
  }

  /** `updatedTrigger(newTrigger:)` keeps the incoming trigger's id. */
  ghost predicate PreservesId(updated: (Trigger, Trigger) -> Trigger)
  {
    forall a, b :: updated(a, b).id == b.id
  }

  /**
   * When merging keeps ids, the merged list has the incoming list's ids in
   * the incoming list's order, so a stored trigger whose id the refresh lacks is dropped.
   */
  lemma UpdateKeepsIdOrder(current: TriggerSet, incoming: TriggerSet, updated: (Trigger, Trigger) -> Trigger)
    requires PreservesId(updated)
    ensures var r := UpdateTriggers(current, incoming, updated);
      forall i :: 0 <= i < |r.triggers| ==> r.triggers[i].id == incoming.triggers[i].id
    ensures var r := UpdateTriggers(current, incoming, updated);
      forall t :: t in r.triggers ==> exists n :: n in incoming.triggers && n.id == t.id
  {
    var r := UpdateTriggers(current, incoming, updated);
    forall i | 0 <= i < |r.triggers|
      ensures r.triggers[i].id == incoming.triggers[i].id
    {
      var n := incoming.triggers[i];
      var j := FirstWithId(current.triggers, n.id);
      if j.Some? {
        assert r.triggers[i] == updated(current.triggers[j.value], n);
      } else {
        assert r.triggers[i] == n;
      }
    }
    forall t | t in r.triggers
      ensures exists n :: n in incoming.triggers && n.id == t.id
    {
      var i :| 0 <= i < |r.triggers| && r.triggers[i] == t;
      assert incoming.triggers[i] in incoming.triggers && incoming.triggers[i].id == t.id;
    }
  }
}
