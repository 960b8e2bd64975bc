/** The metadata store (internal/sqlite/sqlite.go): the table `metadata`, whose
    primary key is `id`, seen as a map from PageID to the stored row.

    Save is the statement INSERT ... ON CONFLICT(id) DO UPDATE SET last_fetched,
    num_links, num_images; ByIDs is SELECT ... WHERE id IN (ids), read row by
    row. The database's failures are inputs: a fault for Save and a
    QueryFault for ByIDs. */
module Sqlite {
  import opened Common
  import opened Domain

  /** Where ByIDs can fail: building the IN query, running it, scanning the
      row with the given 0-based position, or the error that ends iteration. */
  datatype QueryFault =
    | NoFault
    | BuildFails(e: Error)
    | QueryFails(e: Error)
    | ScanFails(row: nat, e: Error)
    | RowsFail(e: Error)

  /** Every row is stored under its own id: at most one row per id. */
  ghost predicate Keyed(rows: map<PageID, MetaData>)
  {
    forall id :: id in rows ==> rows[id].id == id
  }

  /** The table after the upsert of `m`: a new id inserts the whole record;
      an existing id gets the new time and counts and keeps its stored site. */
  function Upserted(rows: map<PageID, MetaData>, m: MetaData): (r: map<PageID, MetaData>)
    ensures r.Keys == rows.Keys + {m.id}
    ensures r[m.id].lastFetched == m.lastFetched
    ensures r[m.id].numLinks == m.numLinks && r[m.id].numImages == m.numImages
    ensures m.id !in rows ==> r[m.id] == m
    ensures m.id in rows ==> r[m.id].site == rows[m.id].site && r[m.id].id == rows[m.id].id
    ensures forall id :: id in rows && id != m.id ==> r[id] == rows[id]
    ensures Keyed(rows) ==> Keyed(r)
  {
    if m.id in rows then
      rows[m.id := rows[m.id].(lastFetched := m.lastFetched, numLinks := m.numLinks, numImages := m.numImages)]
    else
      rows[m.id := m]
  }

  /** The ids of the stored rows that the query asks for. */
  function MatchingIDs(rows: map<PageID, MetaData>, ids: seq<PageID>): set<PageID>
  {
    set id | id in ids && id in rows
  }

  ghost function IdsOf(items: seq<MetaData>): set<PageID>
  {
    set i | 0 <= i < |items| :: items[i].id
  }

  /** `items` holds exactly the stored rows whose id is asked for, each once,
      in any order (the query has no ORDER BY); missing ids are omitted. */
  ghost predicate IsAnswer(rows: map<PageID, MetaData>, ids: seq<PageID>, items: seq<MetaData>)
  {
    && FromRows(rows, items)
    && IdsOf(items) == MatchingIDs(rows, ids)
    && |items| == |MatchingIDs(rows, ids)|
  }

  /** The error ByIDs returns, if any: each step's failure is wrapped with
      that step's context; a scan fault only bites if that row exists. */
  function QueryError(rows: map<PageID, MetaData>, ids: seq<PageID>, fault: QueryFault): Option<Error>
  {
    match fault
    case NoFault => None
    case BuildFails(e) => Some(Wrapped("build sql in query", e))
    case QueryFails(e) => Some(Wrapped("query context", e))
    case ScanFails(row, e) => if row < |MatchingIDs(rows, ids)| then Some(Wrapped("scan row", e)) else None
    case RowsFail(e) => Some(Wrapped("rows err", e))
  }

  class MetaDataRepo {
    var rows: map<PageID, MetaData>

    ghost predicate Valid()
      reads this
    {
      Keyed(rows)
    }

    constructor()
      ensures Valid() && rows == map[]
    {
      rows := map[];
    }

    /** Save: the upsert, or nothing and the wrapped database error. */
    method Save(m: MetaData, fault: Option<Error>) returns (err: Option<Error>)
      requires Valid()
      modifies this
      ensures Valid()
      ensures fault.Some? ==> err == Some(Wrapped("exec context", fault.value)) && rows == old(rows)
      ensures fault.None? ==> err == None && rows == Upserted(old(rows), m)
    {
      if fault.Some? {
        return Some(Wrapped("exec context", fault.value));
      }
      rows := Upserted(rows, m);
      return None;
    }

    /** ByIDs: the matching rows, read one by one in the order the database
        chooses; any failure returns an error and no rows at all. */
    method ByIDs(ids: seq<PageID>, fault: QueryFault) returns (r: Result<seq<MetaData>>)
      requires Valid()
      ensures r.Failure? <==> QueryError(rows, ids, fault).Some?
      ensures r.Failure? ==> r.error == QueryError(rows, ids, fault).value
      ensures r.Success? ==> IsAnswer(rows, ids, r.value)
    {
      if fault.BuildFails? {
        return Failure(Wrapped("build sql in query", fault.e));
      }
      if fault.QueryFails? {
        return Failure(Wrapped("query context", fault.e));
      }
      var matching := MatchingIDs(rows, ids);
      var items: seq<MetaData> := [];
      var pending := matching;
      while pending != {}
        invariant Scanning(rows, matching, pending, items)
        invariant fault.ScanFails? ==> fault.row >= |items|
        decreases |pending|
      {
        var id :| id in pending;
        if fault.ScanFails? && fault.row == |items| {
          return Failure(Wrapped("scan row", fault.e));
        }
        ScanStep(rows, matching, pending, items, id);
        items := items + [rows[id]];
        pending := pending - {id};
      }
      if fault.RowsFail? {
        return Failure(Wrapped("rows err", fault.e));
      }
      return Success(items);
    }
  }

  /** Every item is a stored row, under its own id. */
  ghost predicate FromRows(rows: map<PageID, MetaData>, items: seq<MetaData>)
  {
    forall i :: 0 <= i < |items| ==> items[i].id in rows && rows[items[i].id] == items[i]
  }

  lemma FromRowsSnoc(rows: map<PageID, MetaData>, items: seq<MetaData>, id: PageID)
    requires FromRows(rows, items) && Keyed(rows) && id in rows
    ensures FromRows(rows, items + [rows[id]])
  {
    assert forall i :: 0 <= i < |items| ==> (items + [rows[id]])[i] == items[i];
  }

  /** Part way through the rows: `items` holds the rows already read, and
      `pending` the matching ids still to come. */
  ghost predicate Scanning(rows: map<PageID, MetaData>, matching: set<PageID>, pending: set<PageID>, items: seq<MetaData>)
  {
    && matching <= rows.Keys
    && pending <= matching
    && IdsOf(items) == matching - pending
    && |items| + |pending| == |matching|
    && FromRows(rows, items)
  }

  /** Reading one more pending row keeps the scan consistent. */
  lemma ScanStep(rows: map<PageID, MetaData>, matching: set<PageID>, pending: set<PageID>, items: seq<MetaData>, id: PageID)
    requires Keyed(rows) && Scanning(rows, matching, pending, items) && id in pending
    ensures Scanning(rows, matching, pending - {id}, items + [rows[id]])
    ensures |pending - {id}| < |pending|
  {
    IdsOfSnoc(items, rows[id]);
    FromRowsSnoc(rows, items, id);
  }

  lemma IdsOfSnoc(items: seq<MetaData>, m: MetaData)
    ensures IdsOf(items + [m]) == IdsOf(items) + {m.id}
  {
    assert forall i :: 0 <= i < |items| ==> (items + [m])[i] == items[i];
    assert (items + [m])[|items|] == m;
  }

  /** The table after saving `records` in order, none of the saves failing. */
  function SaveAll(rows: map<PageID, MetaData>, records: seq<MetaData>): map<PageID, MetaData>
  {
    if records == [] then rows
    else Upserted(SaveAll(rows, records[..|records| - 1]), records[|records| - 1])
  }

  ghost predicate DistinctIds(records: seq<MetaData>)
  {
    forall i, j :: 0 <= i < j < |records| ==> records[i].id != records[j].id
  }

  function Ids(records: seq<MetaData>): (ids: seq<PageID>)
    ensures |ids| == |records| && forall i :: 0 <= i < |records| ==> ids[i] == records[i].id
  {
    if records == [] then [] else [records[0].id] + Ids(records[1..])
  }

  /** Saving records adds exactly their ids to the table's keys. */
  lemma {:induction false} SaveAllKeys(rows: map<PageID, MetaData>, records: seq<MetaData>)
    ensures SaveAll(rows, records).Keys == rows.Keys + IdsOf(records)
  {
    if records != [] {
      var n := |records| - 1;
      var front, last := records[..n], records[n];
      assert records == front + [last];
      SaveAllKeys(rows, front);
      IdsOfSnoc(front, last);
    }
  }

  /** Saving records with new, distinct ids stores each of them as it is. */
  lemma SaveAllStores(rows: map<PageID, MetaData>, records: seq<MetaData>)
    requires DistinctIds(records)
    requires forall i :: 0 <= i < |records| ==> records[i].id !in rows
    ensures SaveAll(rows, records).Keys == rows.Keys + IdsOf(records)
    ensures forall i :: 0 <= i < |records| ==> SaveAll(rows, records)[records[i].id] == records[i]
  {
    SaveAllKeys(rows, records);
    forall i | 0 <= i < |records|
      ensures SaveAll(rows, records)[records[i].id] == records[i]
    {
      SaveAllStoresAt(rows, records, i);
    }
  }

  lemma {:induction false} SaveAllStoresAt(rows: map<PageID, MetaData>, records: seq<MetaData>, i: nat)
    requires DistinctIds(records)
    requires forall k :: 0 <= k < |records| ==> records[k].id !in rows
    requires i < |records|
    ensures records[i].id in SaveAll(rows, records)
    ensures SaveAll(rows, records)[records[i].id] == records[i]
  {
    var n := |records| - 1;
    var front, last := records[..n], records[n];
    var before := SaveAll(rows, front);
    assert SaveAll(rows, records) == Upserted(before, last);
    if i == n {
      SaveAllKeys(rows, front);
      assert last.id !in IdsOf(front) by {
        forall k | 0 <= k < n ensures front[k].id != last.id { assert front[k] == records[k]; }
      }
    } else {
      assert front[i] == records[i];
      assert DistinctIds(front) by {
        forall a, b | 0 <= a < b < n ensures front[a].id != front[b].id {
          assert front[a] == records[a] && front[b] == records[b];
        }
      }
      SaveAllStoresAt(rows, front, i);
      assert records[i].id != last.id;
    }
  }

  lemma {:induction false} DistinctIdsCount(records: seq<MetaData>)
    requires DistinctIds(records)
    ensures |IdsOf(records)| == |records|
  {
    if records != [] {
      var n := |records| - 1;
      var front, last := records[..n], records[n];
      assert records == front + [last];
      DistinctIdsCount(front);
      IdsOfSnoc(front, last);
      assert forall k :: 0 <= k < n ==> front[k].id != last.id by {
        forall k | 0 <= k < n ensures front[k].id != last.id { assert front[k] == records[k]; }
      }
      assert last.id !in IdsOf(front);
    }
  }

  /** Asking for the saved ids matches exactly the saved ids. */
  lemma SavedIdsMatch(rows: map<PageID, MetaData>, records: seq<MetaData>)
    requires DistinctIds(records)
    requires forall i :: 0 <= i < |records| ==> records[i].id !in rows
    ensures MatchingIDs(SaveAll(rows, records), Ids(records)) == IdsOf(records)
  {
    SaveAllStores(rows, records);
    forall id | id in IdsOf(records) ensures id in Ids(records) {
      var j :| 0 <= j < |records| && records[j].id == id;
      assert Ids(records)[j] == id;
    }
  }

  /** Save, then ByIDs of the saved ids: the answer is the saved records,
      up to order (internal/sqlite/sqlite_test.go). */
  lemma SavedThenQueried(rows: map<PageID, MetaData>, records: seq<MetaData>, items: seq<MetaData>)
    requires DistinctIds(records)
    requires forall i :: 0 <= i < |records| ==> records[i].id !in rows
    requires IsAnswer(SaveAll(rows, records), Ids(records), items)
    ensures |items| == |records|
    ensures forall i :: 0 <= i < |items| ==> items[i] in records
    ensures forall j :: 0 <= j < |records| ==> records[j] in items
  {
    SavedIdsMatch(rows, records);
    DistinctIdsCount(records);
    AnswerWithinSaved(rows, records, items);
    SavedWithinAnswer(rows, records, items);
  }

  lemma AnswerWithinSaved(rows: map<PageID, MetaData>, records: seq<MetaData>, items: seq<MetaData>)
    requires DistinctIds(records)
    requires forall i :: 0 <= i < |records| ==> records[i].id !in rows
    requires forall i :: 0 <= i < |items| ==> items[i].id in SaveAll(rows, records) && SaveAll(rows, records)[items[i].id] == items[i]
    requires IdsOf(items) == IdsOf(records)
    ensures forall i :: 0 <= i < |items| ==> items[i] in records
  {
    SaveAllStores(rows, records);
    forall i | 0 <= i < |items| ensures items[i] in records {
      assert items[i].id in IdsOf(items);
      var j :| 0 <= j < |records| && records[j].id == items[i].id;
      assert items[i] == records[j];
    }
  }

  lemma SavedWithinAnswer(rows: map<PageID, MetaData>, records: seq<MetaData>, items: seq<MetaData>)
    requires DistinctIds(records)
    requires forall i :: 0 <= i < |records| ==> records[i].id !in rows
    requires forall i :: 0 <= i < |items| ==> items[i].id in SaveAll(rows, records) && SaveAll(rows, records)[items[i].id] == items[i]
    requires IdsOf(items) == IdsOf(records)
    ensures forall j :: 0 <= j < |records| ==> records[j] in items
  {
    SaveAllStores(rows, records);
    forall j | 0 <= j < |records| ensures records[j] in items {
      assert records[j].id in IdsOf(records);
      var i :| 0 <= i < |items| && items[i].id == records[j].id;
      assert items[i] == records[j];
    }
  }

  /** Saving twice under one id leaves one row, with the latest time and
      counts; the site is the one stored first. */
  lemma LatestSaveWins(rows: map<PageID, MetaData>, first: MetaData, second: MetaData)
    requires first.id == second.id
    ensures var r := Upserted(Upserted(rows, first), second);
      && r.Keys == rows.Keys + {first.id}
      && r[first.id].lastFetched == second.lastFetched
      && r[first.id].numLinks == second.numLinks && r[first.id].numImages == second.numImages
      && r[first.id].site == (if first.id in rows then rows[first.id].site else first.site)
  {
  }
}
