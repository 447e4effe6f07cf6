/**
 The persisted snapshot: a table with one header line and one data line per enriched
 record. Saving copies the prior artifact (if any) to a new one and appends the new
 rows; reading it back gives the watermark (the latest `starred_at`) and the known
 count (the number of rows).
 */
module Snapshot {
  import opened Records

  /** A line of the table: the header, or one data row with the nine written columns
      (Username, Name, Location, Company, Email, Twitter, Followers, Starred at, Bio). */
  datatype Line = Header | Data(row: Enriched)

  /** The data rows of a table, in order; the header is not a row. */
  function DataRows(lines: seq<Line>): seq<Enriched>
  {
    if lines == [] then []
    else (if lines[0].Data? then [lines[0].row] else []) + DataRows(lines[1..])
  }

  /** A table as it is written: the header first, data rows after it. */
  predicate WellFormed(lines: seq<Line>)
  {
    |lines| > 0 && lines[0] == Header && forall i :: 1 <= i < |lines| ==> lines[i].Data?
  }

  function AsLines(rows: seq<Enriched>): (lines: seq<Line>)
  {
    if rows == [] then [] else [Data(rows[0])] + AsLines(rows[1..])
  }

  /** What the new artifact holds: the prior artifact's lines (nothing when there is no
      prior artifact), a header only if that copy is empty, then one line per new record.
      It is never empty and always begins with the prior artifact. */
  function Saved(latest: Option<seq<Line>>, info: seq<Enriched>): (s: seq<Line>)
    ensures s != []
    ensures latest.Some? ==> latest.value <= s
  {
    var copied := if latest.Some? then latest.value else [];
    copied + (if copied == [] then [Header] else []) + AsLines(info)
  }

  lemma {:induction false} DataRowsAppend(a: seq<Line>, b: seq<Line>)
    ensures DataRows(a + b) == DataRows(a) + DataRows(b)
  {
    if a == [] {
      assert a + b == b;
    } else {
      assert (a + b)[0] == a[0] && (a + b)[1..] == a[1..] + b;
      DataRowsAppend(a[1..], b);
    }
  }

  lemma {:induction false} AsLinesRoundTrip(rows: seq<Enriched>)
    ensures DataRows(AsLines(rows)) == rows
  {
    if rows != [] {
      AsLinesRoundTrip(rows[1..]);
      var lines := AsLines(rows);
      assert lines[0] == Data(rows[0]) && lines[1..] == AsLines(rows[1..]);
    }
  }

  lemma {:induction false} AsLinesAreData(rows: seq<Enriched>)
    ensures |AsLines(rows)| == |rows| && forall i :: 0 <= i < |rows| ==> AsLines(rows)[i].Data?
  {
    if rows != [] {
      AsLinesAreData(rows[1..]);
      assert AsLines(rows)[1..] == AsLines(rows[1..]);
    }
  }

  lemma {:induction false} NoHeaderAmongRows(rows: seq<Enriched>)
    ensures Header !in AsLines(rows)
  {
    if rows != [] {
      NoHeaderAmongRows(rows[1..]);
    }
  }

  /** Saving is append-only: the prior lines come first, unchanged, and a header is
      written exactly when the copied artifact is empty (in particular when there is no
      prior artifact). */
  lemma SavedKeepsPrior(latest: Option<seq<Line>>, info: seq<Enriched>)
    ensures var copied := if latest.Some? then latest.value else [];
      copied <= Saved(latest, info) &&
      (Header in Saved(latest, info)[|copied|..] <==> copied == [])
  {
    var copied := if latest.Some? then latest.value else [];
    var head := if copied == [] then [Header] else [];
    assert Saved(latest, info)[|copied|..] == head + AsLines(info);
    NoHeaderAmongRows(info);
  }

  /** The rows read back from the new artifact are the prior rows followed by the new
      records, in their given order. */
  lemma SavedRows(latest: Option<seq<Line>>, info: seq<Enriched>)
    ensures DataRows(Saved(latest, info)) == DataRows(if latest.Some? then latest.value else []) + info
  {
    var copied := if latest.Some? then latest.value else [];
    var head := if copied == [] then [Header] else [];
    assert Saved(latest, info) == (copied + head) + AsLines(info);
    DataRowsAppend(copied + head, AsLines(info));
    DataRowsAppend(copied, head);
    assert DataRows(head) == [] by {
      if head != [] {
        assert head[1..] == [];
      }
    }
    AsLinesRoundTrip(info);
  }

  /** A save from no prior artifact, or from a well-formed one, yields a well-formed table. */
  lemma SavedIsWellFormed(latest: Option<seq<Line>>, info: seq<Enriched>)
    requires latest.Some? ==> WellFormed(latest.value)
    ensures WellFormed(Saved(latest, info))
  {
    AsLinesAreData(info);
  }

  /** `save_stargazer_data`: copy the prior artifact, write the header if the target is
      still empty, then append the new records one by one. */
  method SaveStargazerData(latest: Option<seq<Line>>, info: seq<Enriched>) returns (csv: seq<Line>)
    ensures csv == Saved(latest, info)
  {
    csv := if latest.Some? then latest.value else [];
    if |csv| == 0 {
      csv := csv + [Header];
    }
    var k := 0;
    while k < |info|
      invariant 0 <= k <= |info|
      invariant csv + AsLines(info[k..]) == Saved(latest, info)
    {
      assert info[k..][0] == info[k] && info[k..][1..] == info[k + 1..];
      csv := csv + [Data(info[k])];
      k := k + 1;
    }
    assert info[k..] == [];
  }

  /** The latest `starred_at` among `rows`, if any. */
  function MaxStarredAt(rows: seq<Enriched>): (m: Option<Timestamp>)
    ensures m.None? <==> rows == []
    ensures m.Some? ==> forall i :: 0 <= i < |rows| ==> rows[i].starredAt <= m.value
    ensures m.Some? ==> exists i :: 0 <= i < |rows| && rows[i].starredAt == m.value
  {
    if rows == [] then None
    else
      var rest := MaxStarredAt(rows[1..]);
      if rest.None? || rest.value < rows[0].starredAt then Some(rows[0].starredAt)
      else
        assert exists i :: 1 <= i < |rows| && rows[i].starredAt == rest.value by {
          var j :| 0 <= j < |rows[1..]| && rows[1..][j].starredAt == rest.value;
          assert rows[j + 1] == rows[1..][j];
        }
        Some(rest.value)
  }

  /** The snapshot's watermark and known count. */
  datatype Latest = Latest(watermark: Option<Timestamp>, count: nat)

  /** `get_latest_stargazer_data`, as corrected: the watermark is the latest `starred_at`
      of the rows and the count is the number of rows; without a prior artifact, or with
      one that holds no rows, there is no watermark. */
  function GetLatestStargazerData(latest: Option<seq<Line>>): (l: Latest)
    ensures latest.None? ==> l == Latest(None, 0)
    ensures latest.Some? ==> l.count == |DataRows(latest.value)|
    ensures l.watermark.None? <==> latest.None? || DataRows(latest.value) == []
    ensures l.watermark.Some? ==>
              forall e :: e in DataRows(latest.value) ==> e.starredAt <= l.watermark.value
    ensures l.watermark.Some? ==>
              exists e :: e in DataRows(latest.value) && e.starredAt == l.watermark.value
  {
    if latest.None? then Latest(None, 0)
    else
      var rows := DataRows(latest.value);
      var m := MaxStarredAt(rows);
      assert m.Some? ==> exists e :: e in rows && e.starredAt == m.value by {
        if m.Some? {
          var i :| 0 <= i < |rows| && rows[i].starredAt == m.value;
          assert rows[i] in rows;
        }
      }
      Latest(m, |rows|)
  }

  lemma {:induction false} MaxStarredAtAppend(a: seq<Enriched>, b: seq<Enriched>)
    requires MaxStarredAt(a).Some?
    ensures MaxStarredAt(a + b).Some? && MaxStarredAt(a + b).value >= MaxStarredAt(a).value
  {
    var i :| 0 <= i < |a| && a[i].starredAt == MaxStarredAt(a).value;
    assert (a + b)[i] == a[i];
  }

  /** Saving never lowers the watermark, and the known count grows by exactly the number
      of new records. */
  lemma WatermarkMonotonic(latest: Option<seq<Line>>, info: seq<Enriched>)
    ensures var before, after := GetLatestStargazerData(latest), GetLatestStargazerData(Some(Saved(latest, info)));
      after.count == before.count + |info| &&
      (before.watermark.Some? ==> after.watermark.Some? && after.watermark.value >= before.watermark.value)
  {
    SavedRows(latest, info);
    var copied := if latest.Some? then latest.value else [];
    assert latest.None? ==> DataRows(copied) == [];
    if latest.Some? && DataRows(copied) != [] {
      MaxStarredAtAppend(DataRows(copied), info);
    }
  }

  // The reading as the source writes it, kept to exhibit the finding below.

  /** What `df["Starred at"].max()` yields: Python's `None` when there is no artifact, a
      NaN float for a table without rows, or the maximum. */
  datatype Cell = NoneValue | NaN | Value(t: Timestamp)

  /** `get_latest_stargazer_data` as written, on the artifacts `save_stargazer_data`
      writes: none, or a table that starts with its header. */
  function LatestAsWritten(latest: Option<seq<Line>>): (r: (Cell, nat))
    requires latest.None? || WellFormed(latest.value)
    ensures latest.None? ==> r == (NoneValue, 0)
    ensures latest.Some? ==> r.1 == |DataRows(latest.value)|
    ensures r.0 == NaN <==> latest.Some? && DataRows(latest.value) == []
    ensures latest.Some? && DataRows(latest.value) != [] ==>
              r.0 == Value(GetLatestStargazerData(latest).watermark.value)
  {
    if latest.None? then (NoneValue, 0)
    else
      var rows := DataRows(latest.value);
      var m := MaxStarredAt(rows);
      if m.None? then (NaN, 0) else (Value(m.value), |rows|)
  }

  /** How the next run reads the watermark: a falsy value gives no watermark; anything
      else is handed to `strptime`, which raises (`None` here) on a NaN float. */
  function ParseWatermarkAsWritten(c: Cell): (r: Option<Option<Timestamp>>)
    ensures r.None? <==> c == NaN
    ensures c == NoneValue ==> r == Some(None)
    ensures c.Value? ==> r == Some(Some(c.t))
  {
    match c
    case NoneValue => Some(None)
    case NaN => None
    case Value(t) => Some(Some(t))
  }

  /** A first run that accepts no record saves a table holding the header alone. Read back
      as written, its watermark is NaN. The parse runs once per fetched record, inside the
      filter loop, so a next run that fetches at least one record raises on the first of
      them (one that fetches none saves another header-only table) instead of treating the
      table as having no watermark; the corrected reading gives no watermark and a count
      of 0. */
  lemma HeaderOnlySnapshotBreaksNextRun()
    ensures Saved(None, []) == [Header]
    ensures LatestAsWritten(Some(Saved(None, []))).0 == NaN
    ensures ParseWatermarkAsWritten(LatestAsWritten(Some(Saved(None, []))).0).None?
    ensures GetLatestStargazerData(Some(Saved(None, []))) == Latest(None, 0)
  {
  }
}
