/**
 * Incident ingestion of app.py: `fetch_firewatch` turns the rows of the
 * FireWatch history table into incident records, and `deduplicate_and_save`
 * merges them into the CSV store keeping the first row of each
 * (timestamp, incident_type, location) key. `fetch_route` ties the two.
 */
module Firewatch {
  import opened Wrappers
  import opened Html

  datatype Incident = Incident(timestamp: string, incidentType: string, location: string, units: string)

  /** The history page: the request failed, the page has no `<table>`, or the table's rows (each the list of its `<td>` cells). */
  datatype FeedPage = FetchFailed | NoTable | Table(rows: seq<seq<Cell>>)

  /** Python's `rows[1:]`: everything after the header row, empty when there is none. */
  function DropHeader<T>(rows: seq<T>): (r: seq<T>)
    ensures |rows| > 0 ==> r == rows[1..]
    ensures |rows| == 0 ==> r == []
  {
    if |rows| == 0 then [] else rows[1..]
  }

  /**
   * The record a row of at least four cells becomes: the first four cells in
   * order, with an empty timestamp replaced by the clock reading `now`.
   */
  function ToIncident(cols: seq<string>, now: string): (r: Incident)
    requires |cols| >= 4
    ensures [r.incidentType, r.location, r.units] == cols[1..4]
    ensures cols[0] != "" ==> r.timestamp == cols[0]
    ensures cols[0] == "" ==> r.timestamp == now
  {
    Incident(if cols[0] != "" then cols[0] else now, cols[1], cols[2], cols[3])
  }

  /** The incidents a sequence of data rows yields: rows of fewer than four cells are dropped. */
  function RowsToIncidents(rows: seq<seq<Cell>>, now: string): seq<Incident> {
    if rows == [] then []
    else
      var cols := Columns(rows[|rows| - 1]);
      RowsToIncidents(rows[..|rows| - 1], now) + (if |cols| < 4 then [] else [ToIncident(cols, now)])
  }

  /** What `fetch_firewatch` returns. */
  function FirewatchIncidents(page: FeedPage, now: string): (r: seq<Incident>)
    ensures !page.Table? ==> r == []
  {
    match page
    case Table(rows) => RowsToIncidents(DropHeader(rows), now)
    case _ => []
  }

  /** `fetch_firewatch`, with the HTTP request and the HTML parsing done by `page` and the clock read as `now`. */
  method FetchFirewatch(page: FeedPage, now: string) returns (incidents: seq<Incident>)
    ensures incidents == FirewatchIncidents(page, now)
  {
    if !page.Table? {
      return [];
    }
    var dataRows := DropHeader(page.rows);
    incidents := [];
    for i := 0 to |dataRows|
      invariant incidents == RowsToIncidents(dataRows[..i], now)
    {
      assert dataRows[..i + 1][..i] == dataRows[..i];
      var cols := Columns(dataRows[i]);
      if |cols| < 4 {
        continue;
      }
      var incident := ToIncident(cols, now);
      incidents := incidents + [incident];
    }
    assert dataRows[..|dataRows|] == dataRows;
  }

  /** Row extraction keeps row order: the incidents of a concatenation are the concatenated incidents. */
  lemma {:induction false} RowsToIncidentsAppend(a: seq<seq<Cell>>, b: seq<seq<Cell>>, now: string)
    ensures RowsToIncidents(a + b, now) == RowsToIncidents(a, now) + RowsToIncidents(b, now)
  {
    if b == [] {
      assert a + b == a;
    } else {
      var init := b[..|b| - 1];
      RowsToIncidentsAppend(a, init, now);
      assert (a + b)[..|a + b| - 1] == a + init;
      assert (a + b)[|a + b| - 1] == b[|b| - 1];
    }
  }

  /** A single row yields one incident built from its cells if it has at least four, none otherwise. */
  lemma RowsToIncidentsSingle(row: seq<Cell>, now: string)
    ensures RowsToIncidents([row], now) ==
            if |row| >= 4 then [ToIncident(Columns(row), now)] else []
  {
    assert [row][..0] == [];
  }

  /** There are as many incidents as data rows of at least four cells. */
  lemma {:induction false} RowsToIncidentsCount(rows: seq<seq<Cell>>, now: string)
    ensures |RowsToIncidents(rows, now)| == |set i | 0 <= i < |rows| && |rows[i]| >= 4|
  {
    if rows != [] {
      RowsToIncidentsCount(rows[..|rows| - 1], now);
      LongRowsSnoc(rows);
    }
  }

  /** Adding a row adds one position to the long rows exactly when it is long itself. */
  lemma LongRowsSnoc<T>(rows: seq<seq<T>>)
    requires rows != []
    ensures var n := |rows| - 1;
            |set i | 0 <= i < |rows| && |rows[i]| >= 4| ==
            |set i | 0 <= i < n && |rows[..n][i]| >= 4| + (if |rows[n]| >= 4 then 1 else 0)
  {
    var n := |rows| - 1;
    var before := set i | 0 <= i < n && |rows[..n][i]| >= 4;
    var after := set i | 0 <= i < |rows| && |rows[i]| >= 4;
    assert n !in before;
    if |rows[n]| >= 4 {
      assert after == before + {n};
    } else {
      assert after == before;
    }
  }

  /** Every incident is built from a data row of at least four cells. */
  lemma {:induction false} RowsToIncidentsOrigin(rows: seq<seq<Cell>>, now: string)
    ensures forall r :: r in RowsToIncidents(rows, now) ==>
              exists i :: 0 <= i < |rows| && |rows[i]| >= 4 && r == ToIncident(Columns(rows[i]), now)
  {
    if rows != [] {
      var n := |rows| - 1;
      var init := rows[..n];
      RowsToIncidentsOrigin(init, now);
      forall r | r in RowsToIncidents(rows, now)
        ensures exists i :: 0 <= i < |rows| && |rows[i]| >= 4 && r == ToIncident(Columns(rows[i]), now)
      {
        if r in RowsToIncidents(init, now) {
          var i :| 0 <= i < |init| && |init[i]| >= 4 && r == ToIncident(Columns(init[i]), now);
          assert rows[i] == init[i];
        } else {
          assert |rows[n]| >= 4 && r == ToIncident(Columns(rows[n]), now);
        }
      }
    }
  }

  /** The first row is never read: whatever the header holds, the incidents are the same. */
  lemma HeaderIgnored(h1: seq<Cell>, h2: seq<Cell>, rest: seq<seq<Cell>>, now: string)
    ensures FirewatchIncidents(Table([h1] + rest), now) == FirewatchIncidents(Table([h2] + rest), now)
  {
    assert DropHeader([h1] + rest) == rest == DropHeader([h2] + rest);
  }

  /** The dedup key; `units` is not part of it. */
  type Key = (string, string, string)

  function KeyOf(r: Incident): Key {
    (r.timestamp, r.incidentType, r.location)
  }

  function KeysOf(rows: seq<Incident>): set<Key> {
    set i | 0 <= i < |rows| :: KeyOf(rows[i])
  }

  /** `drop_duplicates(subset=[timestamp, incident_type, location])` with its default `keep='first'`. */
  function KeepFirst(rows: seq<Incident>): seq<Incident> {
    if rows == [] then []
    else
      var init, last := rows[..|rows| - 1], rows[|rows| - 1];
      KeepFirst(init) + (if KeyOf(last) in KeysOf(init) then [] else [last])
  }

  /** The dedup loop: walk the rows once, keeping a row when its key has not been seen. */
  method Deduplicate(rows: seq<Incident>) returns (kept: seq<Incident>)
    ensures kept == KeepFirst(rows)
  {
    kept := [];
    var seen: set<Key> := {};
    for i := 0 to |rows|
      invariant kept == KeepFirst(rows[..i])
      invariant seen == KeysOf(rows[..i])
    {
      var prefix := rows[..i + 1];
      assert prefix[..i] == rows[..i] && prefix[i] == rows[i];
      assert KeysOf(prefix) == seen + {KeyOf(rows[i])} by {
        forall k | k in KeysOf(prefix)
          ensures k in seen + {KeyOf(rows[i])}
        {
          var j :| 0 <= j < i + 1 && k == KeyOf(prefix[j]);
          if j < i { assert KeyOf(rows[..i][j]) == k; }
        }
      }
      var key := KeyOf(rows[i]);
      if key !in seen {
        kept := kept + [rows[i]];
      }
      seen := seen + {key};
    }
    assert rows[..|rows|] == rows;
  }

  lemma KeysOfSnoc(rows: seq<Incident>, x: Incident)
    ensures KeysOf(rows + [x]) == KeysOf(rows) + {KeyOf(x)}
  {
    var s := rows + [x];
    forall k | k in KeysOf(s)
      ensures k in KeysOf(rows) + {KeyOf(x)}
    {
      var j :| 0 <= j < |s| && k == KeyOf(s[j]);
      if j < |rows| { assert s[j] == rows[j]; }
    }
    forall k | k in KeysOf(rows)
      ensures k in KeysOf(s)
    {
      var j :| 0 <= j < |rows| && k == KeyOf(rows[j]);
      assert s[j] == rows[j];
    }
    assert KeyOf(s[|rows|]) == KeyOf(x);
  }

  /** Nothing is lost but duplicates: every key of the input is still present. */
  lemma {:induction false} KeepFirstKeys(rows: seq<Incident>)
    ensures KeysOf(KeepFirst(rows)) == KeysOf(rows)
  {
    if rows != [] {
      var init, last := rows[..|rows| - 1], rows[|rows| - 1];
      KeepFirstKeys(init);
      assert rows == init + [last];
      KeysOfSnoc(init, last);
      if KeyOf(last) in KeysOf(init) {
        assert KeepFirst(rows) == KeepFirst(init);
        assert KeysOf(rows) == KeysOf(init);
      } else {
        assert KeepFirst(rows) == KeepFirst(init) + [last];
        KeysOfSnoc(KeepFirst(init), last);
      }
    }
  }

  /** After dedup no two rows share a key. */
  lemma {:induction false} KeepFirstUnique(rows: seq<Incident>)
    ensures var kept := KeepFirst(rows);
            forall i, j :: 0 <= i < j < |kept| ==> KeyOf(kept[i]) != KeyOf(kept[j])
  {
    if rows != [] {
      var init, last := rows[..|rows| - 1], rows[|rows| - 1];
      KeepFirstUnique(init);
      KeepFirstKeys(init);
      var p := KeepFirst(init);
      if KeyOf(last) !in KeysOf(init) {
        forall i | 0 <= i < |p|
          ensures KeyOf(p[i]) != KeyOf(last)
        {
          assert KeyOf(p[i]) in KeysOf(p);
        }
      }
    }
  }

  /**
   * `idx` picks out `kept` from `rows` in order, and each picked row is the
   * first of `rows` with its key.
   */
  ghost predicate FirstOccurrences(idx: seq<nat>, kept: seq<Incident>, rows: seq<Incident>) {
    |idx| == |kept| &&
    (forall k :: 0 <= k < |idx| ==> idx[k] < |rows| && rows[idx[k]] == kept[k]) &&
    (forall k, l :: 0 <= k < l < |idx| ==> idx[k] < idx[l]) &&
    (forall k, j :: 0 <= k < |idx| && 0 <= j < idx[k] ==> KeyOf(rows[j]) != KeyOf(kept[k]))
  }

  lemma FirstOccurrencesSnoc(idx: seq<nat>, kept: seq<Incident>, rows: seq<Incident>, x: Incident)
    requires FirstOccurrences(idx, kept, rows)
    ensures FirstOccurrences(idx, kept, rows + [x])
    ensures KeyOf(x) !in KeysOf(rows) ==> FirstOccurrences(idx + [|rows|], kept + [x], rows + [x])
  {
    var s := rows + [x];
    forall k | 0 <= k < |idx|
      ensures s[idx[k]] == rows[idx[k]]
    {
    }
    forall j | 0 <= j < |rows|
      ensures s[j] == rows[j]
    {
    }
    if KeyOf(x) !in KeysOf(rows) {
      var idx', kept' := idx + [|rows|], kept + [x];
      forall k | 0 <= k < |idx'|
        ensures idx'[k] < |s| && s[idx'[k]] == kept'[k]
      {
        if k < |idx| { assert idx'[k] == idx[k] && kept'[k] == kept[k]; }
      }
      forall k, l | 0 <= k < l < |idx'|
        ensures idx'[k] < idx'[l]
      {
        if l < |idx| { assert idx'[k] == idx[k] && idx'[l] == idx[l]; }
      }
      forall k, j | 0 <= k < |idx'| && 0 <= j < idx'[k]
        ensures KeyOf(s[j]) != KeyOf(kept'[k])
      {
        if k < |idx| {
          assert idx'[k] == idx[k] && kept'[k] == kept[k];
        } else {
          assert KeyOf(rows[j]) in KeysOf(rows);
        }
      }
    }
  }

  /** The positions in `rows` of the rows `KeepFirst` keeps. */
  function KeptPositions(rows: seq<Incident>): seq<nat> {
    if rows == [] then []
    else
      var init := rows[..|rows| - 1];
      KeptPositions(init) + (if KeyOf(rows[|rows| - 1]) in KeysOf(init) then [] else [|rows| - 1])
  }

  /** Dedup keeps an order-preserving subsequence of its input, made of first occurrences. */
  lemma {:induction false} KeepFirstSubsequence(rows: seq<Incident>)
    ensures FirstOccurrences(KeptPositions(rows), KeepFirst(rows), rows)
  {
    if rows != [] {
      var init, last := rows[..|rows| - 1], rows[|rows| - 1];
      assert rows == init + [last];
      KeepFirstSubsequence(init);
      FirstOccurrencesSnoc(KeptPositions(init), KeepFirst(init), init, last);
    }
  }

  /**
   * The incoming rows that survive a merge behind `existing`: those whose key
   * neither the existing rows nor an earlier incoming row has.
   */
  function NewRows(existing: seq<Incident>, incoming: seq<Incident>): seq<Incident> {
    if incoming == [] then []
    else
      var init, last := incoming[..|incoming| - 1], incoming[|incoming| - 1];
      NewRows(existing, init) + (if KeyOf(last) in KeysOf(existing + init) then [] else [last])
  }

  /**
   * An existing row beats a new one: deduplicating `existing + incoming`
   * keeps the deduplicated existing rows as they were, followed by the
   * surviving incoming rows.
   */
  lemma {:induction false} OldRowsWin(existing: seq<Incident>, incoming: seq<Incident>)
    ensures KeepFirst(existing + incoming) == KeepFirst(existing) + NewRows(existing, incoming)
  {
    if incoming == [] {
      assert existing + incoming == existing;
    } else {
      var init := incoming[..|incoming| - 1];
      OldRowsWin(existing, init);
      var all := existing + incoming;
      assert all[..|all| - 1] == existing + init && all[|all| - 1] == incoming[|incoming| - 1];
    }
  }

  /** The surviving incoming rows are incoming rows with keys the existing rows do not have. */
  lemma {:induction false} NewRowsAreFresh(existing: seq<Incident>, incoming: seq<Incident>)
    ensures forall r :: r in NewRows(existing, incoming) ==> r in incoming && KeyOf(r) !in KeysOf(existing)
  {
    if incoming != [] {
      var init := incoming[..|incoming| - 1];
      NewRowsAreFresh(existing, init);
      KeysOfAppend(existing, init);
      assert forall r :: r in init ==> r in incoming;
    }
  }

  lemma KeysOfAppend(a: seq<Incident>, b: seq<Incident>)
    ensures KeysOf(a) <= KeysOf(a + b)
  {
    forall k | k in KeysOf(a)
      ensures k in KeysOf(a + b)
    {
      var j :| 0 <= j < |a| && k == KeyOf(a[j]);
      assert (a + b)[j] == a[j];
    }
  }

  /** Two reports of one incident that differ only in `units` collapse into the first. */
  lemma UnitsIgnored(r: Incident, units: string)
    ensures KeepFirst([r, r.(units := units)]) == [r]
  {
    var rows := [r, r.(units := units)];
    assert rows[..1] == [r];
    assert [r][..0] == [];
    assert KeysOf([]) == {};
    assert KeepFirst([r]) == [r];
    assert KeyOf(rows[1]) == KeyOf([r][0]);
    assert KeyOf(rows[1]) in KeysOf([r]);
  }

  /** The CSV file the incidents are kept in. */
  class IncidentStore {
    /** Whether the CSV file exists. */
    var onDisk: bool
    /** Its rows, in file order. */
    var rows: seq<Incident>

    /** A missing file reads as an empty frame. */
    ghost predicate Valid()
      reads this
    {
      !onDisk ==> rows == []
    }

    /** The store as found on disk: the file's rows, or no file. */
    constructor (existing: Option<seq<Incident>>)
      ensures Valid()
      ensures onDisk == existing.Some?
      ensures rows == if existing.Some? then existing.value else []
    {
      onDisk := existing.Some?;
      rows := if existing.Some? then existing.value else [];
    }

    /** `deduplicate_and_save`: old rows, then the new ones, first row per key kept, file written. */
    method DeduplicateAndSave(newIncidents: seq<Incident>)
      requires Valid()
      modifies this
      ensures Valid() && onDisk
      ensures rows == KeepFirst(old(rows) + newIncidents)
    {
      var all := rows + newIncidents;
      rows := Deduplicate(all);
      onDisk := true;
    }

    /** `fetch_route`: fetch, and save only when something was fetched. */
    method FetchRoute(page: FeedPage, now: string)
      requires Valid()
      modifies this
      ensures Valid()
      ensures var fetched := FirewatchIncidents(page, now);
              if fetched == [] then onDisk == old(onDisk) && rows == old(rows)
              else onDisk && rows == KeepFirst(old(rows) + fetched)
    {
      var incidents := FetchFirewatch(page, now);
      if incidents != [] {
        DeduplicateAndSave(incidents);
      }
    }
  }
}
