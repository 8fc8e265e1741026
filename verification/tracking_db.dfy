/**
 * The on-device telemetry queue: an SQLite file with a `view` table and an
 * `event` table. Each table is kept as its rows in insertion order together
 * with the next AUTOINCREMENT id. Opening the file may fail; every operation
 * takes the outcome of its own `openDatabase()` as `opens`. An operation whose
 * statement cannot be prepared (the tables were never created) does nothing.
 */
module TrackingDb {
  import opened Wrappers
  import opened Clock
  import opened Json
  import opened TrackingModels

  /** A row of `view`; a NULL column is `None`. The metadata column holds the JSON text of a value, kept symbolic. */
  datatype ViewRow = ViewRow(id: int, view: Option<string>, metadata: Option<JValue>, timestamp: real)

  /** A row of `event`. */
  datatype EventRow = EventRow(id: int, event: Option<string>, name: Option<string>, metadata: Option<JValue>, timestamp: real)

  /**
   * The database file: whether `setupTables` created the tables, the rows of
   * each table in insertion order, and the id the next insert into each table
   * receives.
   */
  datatype Db = Db(ready: bool, views: seq<ViewRow>, events: seq<EventRow>, nextViewId: int, nextEventId: int)

  /** Whether, and with what, a `completion` closure is called. */
  datatype Reply<T> = NotCalled | Called(value: T)

  /** A file where no table exists yet. */
  const Fresh: Db := Db(false, [], [], 1, 1)

  /** The largest value `sqlite3_column_int` returns unchanged. */
  const MaxColumnInt: int := 0x7fff_ffff

  // ----- Generic table helpers -------------------------------------------

  /** Ids grow strictly along the table, are positive and lie below `next`. */
  predicate IdsBelow<R>(rows: seq<R>, id: R -> int, next: int)
  {
    1 <= next &&
    (forall i, j :: 0 <= i < j < |rows| ==> id(rows[i]) < id(rows[j])) &&
    (forall i :: 0 <= i < |rows| ==> 1 <= id(rows[i]) < next)
  }

  /** Appending a row with the next id keeps the ids ordered and below the following id. */
  lemma IdsBelowAppend<R>(rows: seq<R>, id: R -> int, next: int, x: R)
    ensures IdsBelow(rows, id, next) && id(x) == next ==> IdsBelow(rows + [x], id, next + 1)
  {
  }

  predicate SortedBy<R>(rows: seq<R>, key: R -> real)
  {
    forall i, j :: 0 <= i < j < |rows| ==> key(rows[i]) <= key(rows[j])
  }

  /** `x` put into `rows` in front of the first row whose key is not smaller. */
  function InsertBy<R(==)>(x: R, rows: seq<R>, key: R -> real): (r: seq<R>)
    ensures multiset(r) == multiset(rows) + multiset{x}
  {
    if |rows| == 0 || key(x) <= key(rows[0]) then [x] + rows
    else
      assert rows == [rows[0]] + rows[1..];
      [rows[0]] + InsertBy(x, rows[1..], key)
  }

  /** Inserting into sorted rows keeps them sorted. */
  lemma {:induction false} InsertBySorted<R>(x: R, rows: seq<R>, key: R -> real)
    requires SortedBy(rows, key)
    ensures SortedBy(InsertBy(x, rows, key), key)
  {
    if |rows| != 0 && key(x) > key(rows[0]) {
      var rest := InsertBy(x, rows[1..], key);
      InsertBySorted(x, rows[1..], key);
      forall k | 0 <= k < |rest|
        ensures key(rows[0]) <= key(rest[k])
      {
        assert rest[k] in multiset(rest);
        if rest[k] != x {
          assert rest[k] in multiset(rows[1..]);
          var j :| 0 <= j < |rows[1..]| && rows[1..][j] == rest[k];
          assert rows[j + 1] == rest[k];
        }
      }
    }
  }

  /** `ORDER BY timestamp ASC`; rows with equal keys keep their table order. */
  function SortBy<R(==)>(rows: seq<R>, key: R -> real): (r: seq<R>)
    ensures multiset(r) == multiset(rows)
    ensures SortedBy(r, key)
  {
    if |rows| == 0 then []
    else
      assert rows == [rows[0]] + rows[1..];
      var rest := SortBy(rows[1..], key);
      InsertBySorted(rows[0], rest, key);
      InsertBy(rows[0], rest, key)
  }

  /** `DELETE FROM ... WHERE id IN (ids)`: the rows whose id is not listed, in table order. */
  function WithoutIds<R(!new)>(rows: seq<R>, id: R -> int, ids: set<int>): (r: seq<R>)
    ensures forall x :: x in r <==> x in rows && id(x) !in ids
    ensures (forall k :: 0 <= k < |rows| ==> id(rows[k]) !in ids) ==> r == rows
  {
    if |rows| == 0 then []
    else
      var rest := WithoutIds(rows[1..], id, ids);
      if id(rows[0]) in ids then rest else [rows[0]] + rest
  }

  /** Dropping the first row keeps the ids ordered and below the next id. */
  lemma IdsBelowTail<R>(rows: seq<R>, id: R -> int, next: int)
    requires |rows| != 0 && IdsBelow(rows, id, next)
    ensures IdsBelow(rows[1..], id, next)
  {
    var tail := rows[1..];
    forall i, j | 0 <= i < j < |tail|
      ensures id(tail[i]) < id(tail[j])
    {
      assert tail[i] == rows[i + 1] && tail[j] == rows[j + 1];
    }
    forall i | 0 <= i < |tail|
      ensures 1 <= id(tail[i]) < next
    {
      assert tail[i] == rows[i + 1];
    }
  }

  /** A row with a smaller id than all that follow it may lead them. */
  lemma ConsBelow<R>(x: R, rest: seq<R>, id: R -> int, next: int)
    requires 1 <= id(x) < next && IdsBelow(rest, id, next)
    requires forall k :: 0 <= k < |rest| ==> id(x) < id(rest[k])
    ensures IdsBelow([x] + rest, id, next)
  {
    var r := [x] + rest;
    forall i, j | 0 <= i < j < |r|
      ensures id(r[i]) < id(r[j])
    {
      assert r[j] == rest[j - 1];
      if i != 0 {
        assert r[i] == rest[i - 1];
      }
    }
    forall i | 0 <= i < |r|
      ensures 1 <= id(r[i]) < next
    {
      if i != 0 {
        assert r[i] == rest[i - 1];
      }
    }
  }

  /** Deleting rows keeps the remaining ids ordered and below the next id. */
  lemma {:induction false} WithoutIdsBelow<R(!new)>(rows: seq<R>, id: R -> int, ids: set<int>, next: int)
    ensures IdsBelow(rows, id, next) ==> IdsBelow(WithoutIds(rows, id, ids), id, next)
  {
    if |rows| != 0 && IdsBelow(rows, id, next) {
      var tail := rows[1..];
      IdsBelowTail(rows, id, next);
      WithoutIdsBelow(tail, id, ids, next);
      var rest := WithoutIds(tail, id, ids);
      if id(rows[0]) !in ids {
        forall k | 0 <= k < |rest|
          ensures id(rows[0]) < id(rest[k])
        {
          assert rest[k] in tail;
          var j :| 0 <= j < |tail| && tail[j] == rest[k];
          assert rows[j + 1] == rest[k];
        }
        ConsBelow(rows[0], rest, id, next);
      }
    }
  }

  /**
   * Deleting the ids of an earlier prefix of the table removes exactly that
   * prefix, because ids are distinct.
   */
  lemma WithoutEarlierRows<R(!new)>(earlier: seq<R>, later: seq<R>, id: R -> int, next: int, ids: set<int>)
    requires IdsBelow(later, id, next)
    requires |earlier| <= |later| && later[..|earlier|] == earlier
    requires forall x :: x in earlier ==> id(x) in ids
    requires forall i :: i in ids ==> exists x :: x in earlier && id(x) == i
    ensures forall x :: x in WithoutIds(later, id, ids) <==> x in later && x !in earlier
  {
    forall x | x in later && id(x) in ids
      ensures x in earlier
    {
      var k :| 0 <= k < |later| && later[k] == x;
      var y :| y in earlier && id(y) == id(x);
      var j :| 0 <= j < |earlier| && earlier[j] == y;
      assert later[j] == y;
    }
  }

  /** Loaded records in the order of their rows. */
  function LoadAll<R, T>(rows: seq<R>, load: R -> T): (r: seq<T>)
    ensures |r| == |rows| && forall i :: 0 <= i < |rows| ==> r[i] == load(rows[i])
  {
    seq(|rows|, i requires 0 <= i < |rows| => load(rows[i]))
  }

  // ----- Columns ----------------------------------------------------------

  /** `sqlite3_column_int`: the low 32 bits of the stored integer, as a signed value. */
  function ColumnInt(x: int): (r: int)
    ensures -MaxColumnInt - 1 <= r <= MaxColumnInt
    ensures 0 <= x <= MaxColumnInt ==> r == x
  {
    (x + MaxColumnInt + 1) % 0x1_0000_0000 - MaxColumnInt - 1
  }

  /** `jsonString(fromDictionary:)` bound as a column: NULL without metadata or when serialisation fails. */
  function MetadataColumn(metadata: Option<Dict>): (c: Option<JValue>)
    ensures c.Some? <==> metadata.Some? && SerialisableDict(metadata.value)
    ensures c.Some? ==> c.value == JObject(metadata.value)
  {
    if metadata.Some? && SerialisableDict(metadata.value) then Some(JObject(metadata.value)) else None
  }

  /** `jsonDictionaryForCString`: a dictionary only when the text holds a JSON object. */
  function ReadMetadata(c: Option<JValue>): (m: Option<Dict>)
    ensures m.Some? <==> c.Some? && c.value.JObject?
    ensures m.Some? ==> c.value == JObject(m.value)
  {
    if c.Some? && c.value.JObject? then Some(c.value.fields) else None
  }

  /** What a metadata dictionary reads back as after a save. */
  lemma MetadataRoundTrip(metadata: Option<Dict>)
    ensures ReadMetadata(MetadataColumn(metadata)) ==
      (if metadata.Some? && SerialisableDict(metadata.value) then metadata else None)
  {
  }

  // ----- Tables ---------------------------------------------------------

  function ViewId(row: ViewRow): int { row.id }
  function EventId(row: EventRow): int { row.id }
  function ViewTime(row: ViewRow): real { row.timestamp }
  function EventTime(row: EventRow): real { row.timestamp }

  /** Row ids are distinct, in insertion order, and below the next id of their table. */
  predicate Valid(db: Db)
  {
    IdsBelow(db.views, ViewId, db.nextViewId) && IdsBelow(db.events, EventId, db.nextEventId)
  }

  /** `setupTables()`: `CREATE TABLE IF NOT EXISTS` for both tables. */
  function SetupTables(db: Db, opens: bool): (r: Db)
    ensures opens ==> r.ready
    ensures !opens ==> r == db
    ensures r.views == db.views && r.events == db.events
    ensures Valid(db) ==> Valid(r)
  {
    if opens then db.(ready := true) else db
  }

  /** The row `saveView(_:)` inserts, given the id the table hands out. */
  function ViewRowOf(v: AutomationView, id: int): ViewRow
  {
    ViewRow(id, Some(v.view), MetadataColumn(v.metadata), SecondsSince1970(v.timestamp))
  }

  function EventRowOf(e: AutomationEvent, id: int): EventRow
  {
    EventRow(id, Some(e.event), e.name, MetadataColumn(e.metadata), SecondsSince1970(e.timestamp))
  }

  /** `saveView(_:)`: the view's own id is ignored; the table hands out the next one. */
  function SaveView(db: Db, v: AutomationView, opens: bool): (r: Db)
    ensures opens && db.ready ==>
      r.views == db.views + [ViewRowOf(v, db.nextViewId)] && r.nextViewId == db.nextViewId + 1
    ensures !(opens && db.ready) ==> r == db
    ensures r.events == db.events && r.nextEventId == db.nextEventId && r.ready == db.ready
    ensures Valid(db) ==> Valid(r)
  {
    if opens && db.ready then
      var row := ViewRowOf(v, db.nextViewId);
      IdsBelowAppend(db.views, ViewId, db.nextViewId, row);
      db.(views := db.views + [row], nextViewId := db.nextViewId + 1)
    else db
  }

  /** `saveEvent(_:)` */
  function SaveEvent(db: Db, e: AutomationEvent, opens: bool): (r: Db)
    ensures opens && db.ready ==>
      r.events == db.events + [EventRowOf(e, db.nextEventId)] && r.nextEventId == db.nextEventId + 1
    ensures !(opens && db.ready) ==> r == db
    ensures r.views == db.views && r.nextViewId == db.nextViewId && r.ready == db.ready
    ensures Valid(db) ==> Valid(r)
  {
    if opens && db.ready then
      var row := EventRowOf(e, db.nextEventId);
      IdsBelowAppend(db.events, EventId, db.nextEventId, row);
      db.(events := db.events + [row], nextEventId := db.nextEventId + 1)
    else db
  }

  /**
   * A `view` row read back. Rows this module saves always have a name; a
   * NULL name, on which the code traps, reads as the empty string here.
   */
  function LoadView(row: ViewRow): (v: AutomationView)
    ensures v.id == Some(ColumnInt(row.id))
    ensures v.view == (if row.view.Some? then row.view.value else "")
    ensures v.metadata == ReadMetadata(row.metadata)
    ensures v.timestamp == DateFromSeconds(row.timestamp)
  {
    LoadedView(ColumnInt(row.id), row.view.GetOr(""), ReadMetadata(row.metadata), row.timestamp)
  }

  /**
   * An `event` row read back: a NULL name reads as no name. Rows this module
   * saves always have an event; a NULL event, on which the code traps, reads
   * as "" here.
   */
  function LoadEvent(row: EventRow): (e: AutomationEvent)
    ensures e.id == Some(ColumnInt(row.id))
    ensures e.event == (if row.event.Some? then row.event.value else "")
    ensures e.name == row.name
    ensures e.metadata == ReadMetadata(row.metadata)
    ensures e.timestamp == DateFromSeconds(row.timestamp)
  {
    LoadedEvent(ColumnInt(row.id), row.event.GetOr(""), row.name, ReadMetadata(row.metadata), row.timestamp)
  }

  /** `views(completion:)`: every row, oldest timestamp first; never answers when the file cannot be opened. */
  function ListViews(db: Db, opens: bool): (r: Reply<seq<AutomationView>>)
    ensures r.NotCalled? <==> !opens
    ensures r.Called? && !db.ready ==> r.value == []
    ensures r.Called? && db.ready ==> r.value == LoadAll(SortBy(db.views, ViewTime), LoadView)
  {
    if !opens then NotCalled
    else if !db.ready then Called([])
    else Called(LoadAll(SortBy(db.views, ViewTime), LoadView))
  }

  /** `events(completion:)` */
  function ListEvents(db: Db, opens: bool): (r: Reply<seq<AutomationEvent>>)
    ensures r.NotCalled? <==> !opens
    ensures r.Called? && !db.ready ==> r.value == []
    ensures r.Called? && db.ready ==> r.value == LoadAll(SortBy(db.events, EventTime), LoadEvent)
  {
    if !opens then NotCalled
    else if !db.ready then Called([])
    else Called(LoadAll(SortBy(db.events, EventTime), LoadEvent))
  }

  /**
   * `views(completion:)` as its caller expects it: `nil` when the file cannot
   * be opened. As written the closure is never called in that case.
   */
  function ViewsOrNil(db: Db, opens: bool): (r: Option<seq<AutomationView>>)
    ensures r.None? <==> !opens
    ensures r.Some? ==> ListViews(db, opens) == Called(r.value)
  {
    if opens then Some(ListViews(db, true).value) else None
  }

  /** `events(completion:)` as its caller expects it: `nil` when the file cannot be opened. */
  function EventsOrNil(db: Db, opens: bool): (r: Option<seq<AutomationEvent>>)
    ensures r.None? <==> !opens
    ensures r.Some? ==> ListEvents(db, opens) == Called(r.value)
  {
    if opens then Some(ListEvents(db, true).value) else None
  }

  /** The ids a delete names: a record without id names 0. */
  function ViewIdsOf(views: seq<AutomationView>): (ids: set<int>)
    ensures forall v :: v in views ==> v.id.GetOr(0) in ids
    ensures forall id :: id in ids ==> exists v :: v in views && v.id.GetOr(0) == id
  {
    set v | v in views :: v.id.GetOr(0)
  }

  function EventIdsOf(events: seq<AutomationEvent>): (ids: set<int>)
    ensures forall e :: e in events ==> e.id.GetOr(0) in ids
    ensures forall id :: id in ids ==> exists e :: e in events && e.id.GetOr(0) == id
  {
    set e | e in events :: e.id.GetOr(0)
  }

  /**
   * `deleteViews(_:completion:)`: the new file and whether `completion` ran.
   * An empty list answers at once without opening the file.
   */
  function DeleteViews(db: Db, views: seq<AutomationView>, opens: bool): (r: (Db, bool))
    ensures |views| == 0 ==> r == (db, true)
    ensures |views| != 0 ==> r.1 == opens
    ensures |views| != 0 && opens && db.ready ==>
      forall row :: row in r.0.views <==> row in db.views && row.id !in ViewIdsOf(views)
    ensures !(|views| != 0 && opens && db.ready) ==> r.0 == db
    ensures r.0.events == db.events && r.0.nextViewId == db.nextViewId && r.0.nextEventId == db.nextEventId
    ensures Valid(db) ==> Valid(r.0)
  {
    if |views| == 0 then (db, true)
    else if !opens then (db, false)
    else if !db.ready then (db, true)
    else
      var ids := ViewIdsOf(views);
      WithoutIdsBelow(db.views, ViewId, ids, db.nextViewId);
      (db.(views := WithoutIds(db.views, ViewId, ids)), true)
  }

  /** `deleteEvents(_:completion:)` */
  function DeleteEvents(db: Db, events: seq<AutomationEvent>, opens: bool): (r: (Db, bool))
    ensures |events| == 0 ==> r == (db, true)
    ensures |events| != 0 ==> r.1 == opens
    ensures |events| != 0 && opens && db.ready ==>
      forall row :: row in r.0.events <==> row in db.events && row.id !in EventIdsOf(events)
    ensures !(|events| != 0 && opens && db.ready) ==> r.0 == db
    ensures r.0.views == db.views && r.0.nextViewId == db.nextViewId && r.0.nextEventId == db.nextEventId
    ensures Valid(db) ==> Valid(r.0)
  {
    if |events| == 0 then (db, true)
    else if !opens then (db, false)
    else if !db.ready then (db, true)
    else
      var ids := EventIdsOf(events);
      WithoutIdsBelow(db.events, EventId, ids, db.nextEventId);
      (db.(events := WithoutIds(db.events, EventId, ids)), true)
  }

  // ----- Properties -------------------------------------------------------

  /** `Date(timeIntervalSince1970:)` keeps the order of the stored timestamps. */
  lemma DateFromSecondsMonotone(a: real, b: real)
    requires a <= b
    ensures DateFromSeconds(a) <= DateFromSeconds(b)
  {
  }

  /** Sorting and loading keeps a record for every row. */
  lemma LoadSortedKeeps<R, T>(rows: seq<R>, key: R -> real, load: R -> T, x: R)
    requires x in rows
    ensures load(x) in LoadAll(SortBy(rows, key), load)
  {
    var sorted := SortBy(rows, key);
    assert x in multiset(sorted);
    var k :| 0 <= k < |sorted| && sorted[k] == x;
    assert LoadAll(sorted, load)[k] == load(x);
  }

  /** Sorting and loading invents no record. */
  lemma LoadSortedInvents<R, T>(rows: seq<R>, key: R -> real, load: R -> T, t: T)
    requires t in LoadAll(SortBy(rows, key), load)
    ensures exists x :: x in rows && t == load(x)
  {
    var sorted := SortBy(rows, key);
    var k :| 0 <= k < |sorted| && LoadAll(sorted, load)[k] == t;
    assert sorted[k] in multiset(rows);
  }

  /** Sorting and loading keeps one record per row: no row is lost and none is invented. */
  lemma LoadSortedRows<R, T>(rows: seq<R>, key: R -> real, load: R -> T)
    ensures var listed := LoadAll(SortBy(rows, key), load);
      |listed| == |rows| &&
      (forall x :: x in rows ==> load(x) in listed) &&
      (forall t :: t in listed ==> exists x :: x in rows && t == load(x))
  {
    var sorted := SortBy(rows, key);
    assert |sorted| == |multiset(sorted)| == |multiset(rows)| == |rows|;
    forall x | x in rows
      ensures load(x) in LoadAll(sorted, load)
    {
      LoadSortedKeeps(rows, key, load, x);
    }
    forall t | t in LoadAll(sorted, load)
      ensures exists x :: x in rows && t == load(x)
    {
      LoadSortedInvents(rows, key, load, t);
    }
  }

  /** Loaded timestamps keep the order of the stored ones. */
  lemma LoadedTimesSorted(rows: seq<real>)
    requires forall i, j :: 0 <= i < j < |rows| ==> rows[i] <= rows[j]
    ensures forall i, j :: 0 <= i < j < |rows| ==> DateFromSeconds(rows[i]) <= DateFromSeconds(rows[j])
  {
    forall i, j | 0 <= i < j < |rows|
      ensures DateFromSeconds(rows[i]) <= DateFromSeconds(rows[j])
    {
      DateFromSecondsMonotone(rows[i], rows[j]);
    }
  }

  /** The view listing holds one record per row, oldest first. */
  lemma ListedViewsAreTheTable(db: Db)
    requires db.ready
    ensures var listed := ListViews(db, true).value;
      |listed| == |db.views| &&
      (forall row :: row in db.views ==> LoadView(row) in listed) &&
      (forall v :: v in listed ==> exists row :: row in db.views && v == LoadView(row)) &&
      (forall i, j :: 0 <= i < j < |listed| ==> listed[i].timestamp <= listed[j].timestamp)
  {
    var sorted := SortBy(db.views, ViewTime);
    LoadSortedRows(db.views, ViewTime, LoadView);
    LoadedTimesSorted(seq(|sorted|, i requires 0 <= i < |sorted| => sorted[i].timestamp));
  }

  /** The event listing holds one record per row, oldest first. */
  lemma ListedEventsAreTheTable(db: Db)
    requires db.ready
    ensures var listed := ListEvents(db, true).value;
      |listed| == |db.events| &&
      (forall row :: row in db.events ==> LoadEvent(row) in listed) &&
      (forall e :: e in listed ==> exists row :: row in db.events && e == LoadEvent(row)) &&
      (forall i, j :: 0 <= i < j < |listed| ==> listed[i].timestamp <= listed[j].timestamp)
  {
    var sorted := SortBy(db.events, EventTime);
    LoadSortedRows(db.events, EventTime, LoadEvent);
    LoadedTimesSorted(seq(|sorted|, i requires 0 <= i < |sorted| => sorted[i].timestamp));
  }

  /**
   * A saved view is listed with the id the table gave it, its name, its
   * timestamp, and its metadata when that could be serialised.
   */
  lemma SavedViewListed(db: Db, v: AutomationView)
    requires db.ready && 0 <= db.nextViewId <= MaxColumnInt
    ensures AutomationView(Some(db.nextViewId), v.view, ReadMetadata(MetadataColumn(v.metadata)), v.timestamp)
            in ListViews(SaveView(db, v, true), true).value
  {
    var db1 := SaveView(db, v, true);
    var row := ViewRowOf(v, db.nextViewId);
    assert row in db1.views;
    ListedViewsAreTheTable(db1);
    DateSecondsRoundTrip(v.timestamp);
  }

  /** A saved event is listed with its id, event, name (nil included), timestamp and serialisable metadata. */
  lemma SavedEventListed(db: Db, e: AutomationEvent)
    requires db.ready && 0 <= db.nextEventId <= MaxColumnInt
    ensures AutomationEvent(Some(db.nextEventId), e.event, e.name, ReadMetadata(MetadataColumn(e.metadata)), e.timestamp)
            in ListEvents(SaveEvent(db, e, true), true).value
  {
    var db1 := SaveEvent(db, e, true);
    var row := EventRowOf(e, db.nextEventId);
    assert row in db1.events;
    ListedEventsAreTheTable(db1);
    DateSecondsRoundTrip(e.timestamp);
  }

  /** Every row's id is named when its listing is deleted. */
  lemma ListedViewIdsCover(db: Db)
    requires Valid(db) && db.ready && db.nextViewId <= MaxColumnInt + 1
    ensures forall row :: row in db.views ==> row.id in ViewIdsOf(ListViews(db, true).value)
  {
    var listed := ListViews(db, true).value;
    forall row | row in db.views
      ensures row.id in ViewIdsOf(listed)
    {
      var k :| 0 <= k < |db.views| && db.views[k] == row;
      assert 1 <= ViewId(db.views[k]) < db.nextViewId;
      LoadSortedKeeps(db.views, ViewTime, LoadView, row);
      assert LoadView(row).id.GetOr(0) == row.id;
    }
  }

  /** A listing names no id but those of the table's rows. */
  lemma ListedViewIdsFromTable(db: Db)
    requires Valid(db) && db.ready && db.nextViewId <= MaxColumnInt + 1
    ensures forall id :: id in ViewIdsOf(ListViews(db, true).value) ==> exists row :: row in db.views && row.id == id
  {
    var listed := ListViews(db, true).value;
    forall id | id in ViewIdsOf(listed)
      ensures exists row :: row in db.views && row.id == id
    {
      var v :| v in listed && v.id.GetOr(0) == id;
      LoadSortedInvents(db.views, ViewTime, LoadView, v);
      var row :| row in db.views && v == LoadView(row);
      var k :| 0 <= k < |db.views| && db.views[k] == row;
      assert 1 <= ViewId(db.views[k]) < db.nextViewId;
      assert ColumnInt(row.id) == row.id;
    }
  }

  /** The ids of a listing are exactly the ids of the table, while they fit a column int. */
  lemma ListedViewIds(db: Db)
    requires Valid(db) && db.ready && db.nextViewId <= MaxColumnInt + 1
    ensures forall row :: row in db.views ==> row.id in ViewIdsOf(ListViews(db, true).value)
    ensures forall id :: id in ViewIdsOf(ListViews(db, true).value) ==> exists row :: row in db.views && row.id == id
  {
    ListedViewIdsCover(db);
    ListedViewIdsFromTable(db);
  }

  /** Every row's id is named when its listing is deleted. */
  lemma ListedEventIdsCover(db: Db)
    requires Valid(db) && db.ready && db.nextEventId <= MaxColumnInt + 1
    ensures forall row :: row in db.events ==> row.id in EventIdsOf(ListEvents(db, true).value)
  {
    var listed := ListEvents(db, true).value;
    forall row | row in db.events
      ensures row.id in EventIdsOf(listed)
    {
      var k :| 0 <= k < |db.events| && db.events[k] == row;
      assert 1 <= EventId(db.events[k]) < db.nextEventId;
      LoadSortedKeeps(db.events, EventTime, LoadEvent, row);
      assert LoadEvent(row).id.GetOr(0) == row.id;
    }
  }

  /** A listing names no id but those of the table's rows. */
  lemma ListedEventIdsFromTable(db: Db)
    requires Valid(db) && db.ready && db.nextEventId <= MaxColumnInt + 1
    ensures forall id :: id in EventIdsOf(ListEvents(db, true).value) ==> exists row :: row in db.events && row.id == id
  {
    var listed := ListEvents(db, true).value;
    forall id | id in EventIdsOf(listed)
      ensures exists row :: row in db.events && row.id == id
    {
      var e :| e in listed && e.id.GetOr(0) == id;
      LoadSortedInvents(db.events, EventTime, LoadEvent, e);
      var row :| row in db.events && e == LoadEvent(row);
      var k :| 0 <= k < |db.events| && db.events[k] == row;
      assert 1 <= EventId(db.events[k]) < db.nextEventId;
      assert ColumnInt(row.id) == row.id;
    }
  }

  /** The ids of a listing are exactly the ids of the table, while they fit a column int. */
  lemma ListedEventIds(db: Db)
    requires Valid(db) && db.ready && db.nextEventId <= MaxColumnInt + 1
    ensures forall row :: row in db.events ==> row.id in EventIdsOf(ListEvents(db, true).value)
    ensures forall id :: id in EventIdsOf(ListEvents(db, true).value) ==> exists row :: row in db.events && row.id == id
  {
    ListedEventIdsCover(db);
    ListedEventIdsFromTable(db);
  }

  /**
   * Deleting a listing removes exactly the listed rows: a row inserted after
   * the listing was taken survives the delete.
   */
  lemma DeleteListedViews(db: Db, later: Db)
    requires Valid(db) && db.ready && db.nextViewId <= MaxColumnInt + 1
    requires Valid(later) && later.ready && |db.views| <= |later.views|
    requires later.views[..|db.views|] == db.views
    ensures var r := DeleteViews(later, ListViews(db, true).value, true).0;
      forall row :: row in r.views <==> row in later.views && row !in db.views
  {
    var listed := ListViews(db, true).value;
    if |listed| != 0 {
      ListedViewIds(db);
      WithoutEarlierRows(db.views, later.views, ViewId, later.nextViewId, ViewIdsOf(listed));
    } else {
      ListedViewsAreTheTable(db);
    }
  }

  /**
   * Deleting a listing removes exactly the listed rows: an event inserted after
   * the listing was taken survives the delete.
   */
  lemma DeleteListedEvents(db: Db, later: Db)
    requires Valid(db) && db.ready && db.nextEventId <= MaxColumnInt + 1
    requires Valid(later) && later.ready && |db.events| <= |later.events|
    requires later.events[..|db.events|] == db.events
    ensures var r := DeleteEvents(later, ListEvents(db, true).value, true).0;
      forall row :: row in r.events <==> row in later.events && row !in db.events
  {
    var listed := ListEvents(db, true).value;
    if |listed| != 0 {
      ListedEventIds(db);
      WithoutEarlierRows(db.events, later.events, EventId, later.nextEventId, EventIdsOf(listed));
    } else {
      ListedEventsAreTheTable(db);
    }
  }

  /** Records without an id name row 0, which no table holds: deleting them changes nothing. */
  lemma UnsavedViewsDeleteNothing(db: Db, views: seq<AutomationView>, opens: bool)
    requires Valid(db)
    requires forall i :: 0 <= i < |views| ==> views[i].id.None?
    ensures DeleteViews(db, views, opens).0 == db
  {
    if |views| != 0 && opens && db.ready {
      assert forall id :: id in ViewIdsOf(views) ==> id == 0;
    }
  }

  /** Records without an id name row 0, which no table holds: deleting them changes nothing. */
  lemma UnsavedEventsDeleteNothing(db: Db, events: seq<AutomationEvent>, opens: bool)
    requires Valid(db)
    requires forall i :: 0 <= i < |events| ==> events[i].id.None?
    ensures DeleteEvents(db, events, opens).0 == db
  {
    if |events| != 0 && opens && db.ready {
      assert forall id :: id in EventIdsOf(events) ==> id == 0;
    }
  }
}
