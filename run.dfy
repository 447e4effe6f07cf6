/**
 One run of the collector, composed as the command-line entry point composes it: read
 the watermark and known count of the latest artifact, fetch and enrich the new
 stargazers, save the next artifact.
 */
module Run {
  import opened Records
  import Fetch
  import Enrich
  import Snapshot

  /** The new records of one run: the filter loop, from the snapshot's watermark, over
      what the page loop gathers from the page that follows the known records. */
  function NewRecords(before: Snapshot.Latest, limit: Option<int>,
                      script: seq<Fetch.PageResponse>, details: map<string, Profile>): (info: seq<Enriched>)
    ensures forall e :: e in info ==> before.watermark.None? || e.starredAt > before.watermark.value
    ensures Capped(limit) ==> |info| <= Max(limit.value, 0)
  {
    var fetched := Fetch.FetchRun(Fetch.StartPage(before.count), [], script, limit).stargazers;
    Enrich.AcceptedAboveWatermark(fetched, before.watermark, limit, details);
    Enrich.AcceptedWithinLimit(fetched, before.watermark, limit, details);
    Enrich.Enrichment(fetched, before.watermark, limit, details, 0).accepted
  }

  /** What saving `info` guarantees about the next artifact, given what the filter loop
      promises about `info`: the table stays well-formed, the count grows by `|info|` and
      no more than the limit, the watermark never drops, and every added row is newer than
      the prior watermark. */
  lemma SavedRunFacts(latest: Option<seq<Snapshot.Line>>, info: seq<Enriched>, limit: Option<int>)
    requires latest.None? || Snapshot.WellFormed(latest.value)
    requires var w := Snapshot.GetLatestStargazerData(latest).watermark;
      forall e :: e in info ==> w.None? || e.starredAt > w.value
    requires Capped(limit) ==> |info| <= Max(limit.value, 0)
    ensures Snapshot.WellFormed(Snapshot.Saved(latest, info))
    ensures var before, after := Snapshot.GetLatestStargazerData(latest),
                                 Snapshot.GetLatestStargazerData(Some(Snapshot.Saved(latest, info)));
      after.count >= before.count &&
      (Capped(limit) ==> after.count - before.count <= Max(limit.value, 0)) &&
      (before.watermark.Some? ==> after.watermark.Some? && after.watermark.value >= before.watermark.value)
    ensures var before, rows := Snapshot.GetLatestStargazerData(latest), Snapshot.DataRows(Snapshot.Saved(latest, info));
      forall i :: before.count <= i < |rows| ==>
        before.watermark.None? || rows[i].starredAt > before.watermark.value
  {
    var before := Snapshot.GetLatestStargazerData(latest);
    var rows := Snapshot.DataRows(Snapshot.Saved(latest, info));
    Snapshot.SavedRows(latest, info);
    Snapshot.WatermarkMonotonic(latest, info);
    Snapshot.SavedIsWellFormed(latest, info);
    var copied := if latest.Some? then latest.value else [];
    assert rows == Snapshot.DataRows(copied) + info;
    assert before.count == |Snapshot.DataRows(copied)|;
    forall i | before.count <= i < |rows|
      ensures before.watermark.None? || rows[i].starredAt > before.watermark.value
    {
      assert rows[i] == info[i - before.count];
      assert info[i - before.count] in info;
    }
  }

  /** One run, reading the prior artifact with the corrected `GetLatestStargazerData`.
      `latest` is the latest prior artifact, if there is one (one written by an earlier
      run); the result is the content of the new artifact: the prior one with the run's
      new records appended. */
  method IncrementalRun(latest: Option<seq<Snapshot.Line>>, limit: Option<int>,
                        script: seq<Fetch.PageResponse>, details: map<string, Profile>)
    returns (csv: seq<Snapshot.Line>)
    requires latest.None? || Snapshot.WellFormed(latest.value)
    ensures csv == Snapshot.Saved(latest, NewRecords(Snapshot.GetLatestStargazerData(latest), limit, script, details))
    ensures latest.Some? ==> latest.value <= csv
    ensures Snapshot.WellFormed(csv)
    ensures var before, after := Snapshot.GetLatestStargazerData(latest), Snapshot.GetLatestStargazerData(Some(csv));
      after.count >= before.count &&
      (Capped(limit) ==> after.count - before.count <= Max(limit.value, 0)) &&
      (before.watermark.Some? ==> after.watermark.Some? && after.watermark.value >= before.watermark.value)
    ensures var before := Snapshot.GetLatestStargazerData(latest);
      forall i :: before.count <= i < |Snapshot.DataRows(csv)| ==>
        before.watermark.None? || Snapshot.DataRows(csv)[i].starredAt > before.watermark.value
  {
    var before := Snapshot.GetLatestStargazerData(latest);
    var info := Enrich.ExtractStargazerInfo(before.count, before.watermark, limit, script, details);
    assert info == NewRecords(before, limit, script, details);
    csv := Snapshot.SaveStargazerData(latest, info);
    SavedRunFacts(latest, info, limit);
  }

  /** A first run without a limit records every fetched stargazer whose detail request
      succeeds, in fetch order, and nothing else. */
  lemma FirstRunRecordsEveryFoundStargazer(limit: Option<int>, script: seq<Fetch.PageResponse>,
                                           details: map<string, Profile>)
    requires !Capped(limit)
    ensures var fetched := Fetch.FetchRun(Fetch.StartPage(0), [], script, limit).stargazers;
      var rows := Snapshot.DataRows(Snapshot.Saved(None, NewRecords(Snapshot.GetLatestStargazerData(None), limit, script, details)));
      rows == Enrich.EligibleFetched(fetched, None, details) &&
      forall i :: 0 <= i < |fetched| && fetched[i].login in details ==>
        Enriched(details[fetched[i].login], fetched[i].starredAt) in rows
  {
    var fetched := Fetch.FetchRun(Fetch.StartPage(0), [], script, limit).stargazers;
    var info := NewRecords(Snapshot.GetLatestStargazerData(None), limit, script, details);
    Enrich.UnlimitedAcceptsAllEligible(fetched, None, limit, details);
    Snapshot.SavedRows(None, info);
    assert Snapshot.DataRows([]) + info == info;
  }

  /** A prior artifact with one row starred at instant `t0`; a fetch that yields a record
      starred at `t0` and one starred later. The first is skipped as already seen (equal
      timestamps are not newer), the second is accepted, and the new artifact has exactly
      two rows. */
  lemma EqualTimestampIsSkipped(prior: Enriched, p0: Profile, p1: Profile, t0: Timestamp, t1: Timestamp)
    requires prior.starredAt == t0 && t0 < t1
    requires p0.login != p1.login
    ensures
      var latest := Some([Snapshot.Header, Snapshot.Data(prior)]);
      var fetched := [StarRecord(p0.login, t0), StarRecord(p1.login, t1)];
      var details := map[p0.login := p0, p1.login := p1];
      var watermark := Snapshot.GetLatestStargazerData(latest).watermark;
      var info := Enrich.Enrichment(fetched, watermark, None, details, 0).accepted;
      info == [Enriched(p1, t1)] &&
      Snapshot.DataRows(Snapshot.Saved(latest, info)) == [prior, Enriched(p1, t1)]
  {
    var lines := [Snapshot.Header, Snapshot.Data(prior)];
    var latest := Some(lines);
    assert Snapshot.DataRows(lines) == [prior] by {
      assert lines[1..] == [Snapshot.Data(prior)];
      assert [Snapshot.Data(prior)][1..] == [];
      assert Snapshot.DataRows([Snapshot.Data(prior)]) == [prior] + Snapshot.DataRows([]);
    }
    assert Snapshot.MaxStarredAt([prior]) == Some(t0);
    var details := map[p0.login := p0, p1.login := p1];
    var fetched := [StarRecord(p0.login, t0), StarRecord(p1.login, t1)];
    assert fetched[1..] == [StarRecord(p1.login, t1)];
    assert fetched[1..][1..] == [];
    assert Enrich.Enrichment(fetched[1..], Some(t0), None, details, 0).accepted == [Enriched(p1, t1)];
    var info := [Enriched(p1, t1)];
    Snapshot.SavedRows(latest, info);
  }
}
