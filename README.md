# Incremental stargazer collector — Dafny model

This project models the incremental-fetch controller of a script that collects the users
who starred a GitHub repository. Each run does three things. It reads the watermark (the
latest `starred_at`) and the row count of the latest saved CSV snapshot. It pages through
the stargazers list from a resume page and sends one profile request per new stargazer,
up to an optional `--limit`. It then writes a new snapshot: the prior rows followed by the
new ones.

Modules, one per component of `scrape_stargazers.py`:

- `Records` (`records.dfy`): the values. A star record (login and `starred_at`), a
  profile, an enriched record, and `Capped`, which reads `limit` by Python truthiness.
  Both `None` and `0` mean "no cap".
- `Fetch` (`fetch.dfy`): `get_stargazers`, the page loop. The HTTP client is replaced by
  a finite script of page responses, `Response(status, items)` or `Raised`. The
  reference function `FetchRun` is the loop run on that script. `GetStargazers` is the
  `while` loop, proved equal to `FetchRun`, and the lemmas state what a run guarantees.
- `Enrich` (`enrich.dfy`): `extract_stargazer_info`, the filter loop. The profile
  endpoint is a `map` from login to profile; a missing login is a failed request.
  `Enrichment` is the reference function and `EnrichStargazers` the `for` loop proved
  equal to it. `EligibleFetched` is a second reference definition, with no limit.
- `Snapshot` (`snapshot.dfy`): `save_stargazer_data` and `get_latest_stargazer_data`. A
  CSV file is a sequence of lines, a header or a data row.
- `Run` (`run.dfy`): one run as `main` wires the three steps, with the corrected reading
  of the prior artifact (see "## Findings"), for the properties that span the components.

Timestamps are integers: the instant that `strptime` parses from the fixed
`YYYY-MM-DDTHH:MM:SSZ` form. pandas takes the watermark as the maximum of these strings.
For that fixed form the textual maximum is the chronological one, so the model takes the
maximum of the integers.

## Model

| member | source | states |
|---|---|---|
| `Fetch.StartPage` | scrape_stargazers.py:101 | the first page requested is at least 1 and is the page of 30 that holds record number `known + 1` |
| `Fetch.StartPageResumesAt45` | scrape_stargazers.py:101 | 45 known records resume at page 2, none at page 1, 30 at page 2 |
| `Fetch.ThrottleDelay` | scrape_stargazers.py:111-119 | the pause lasts at least 10 seconds and until 10 seconds past the reset instant, and no longer than that |
| `Fetch.VerdictCases` | scrape_stargazers.py:121-148 | a response ends the loop in exactly one of three ways: an empty 200 page, the limit reached after a non-empty 200 page, or a status other than 200 and 403; a 403 or an exception never ends it |
| `Fetch.GatheredIsConcatenationOfPages` | scrape_stargazers.py:121-134 | what the responses contribute is the concatenation, in order, of the item lists of the non-empty 200 pages; 403s, exceptions and other statuses add nothing |
| `Fetch.FetchRun` | scrape_stargazers.py:103-154 | the loop consumes one response per request and never more responses than it is given; when it is given a response it makes at least one request |
| `Fetch.FetchRunAccumulates` | scrape_stargazers.py:103-154 | the loop consumes a prefix of the responses and returns its starting accumulation followed by everything that prefix contributes, however it ends; nothing is truncated |
| `Fetch.FetchRunPages` | scrape_stargazers.py:122-152 | the first request is for the start page; after it, the next page number is one more after a non-empty 200 page and the same (a retry) after a 403 or an exception |
| `Fetch.FetchRunStops` | scrape_stargazers.py:123-148 | the last response consumed gives the ending; the script runs out only when no exit was taken |
| `Fetch.FetchRunContinues` | scrape_stargazers.py:123-148 | no response before the last one consumed ends the loop, judged with the records gathered up to it |
| `Fetch.FetchRunOvershoot` | scrape_stargazers.py:125-132 | when the limit stops the loop, the records gathered before the last page were none or fewer than the limit, so the overshoot is within that one page |
| `Fetch.ResumedStep` | scrape_stargazers.py:103-152 | one loop step: the verdict on the response ends the run, or the run goes on from the next page number with the extended accumulation |
| `Fetch.HandleResponse` | scrape_stargazers.py:121-152 | one pass of the loop body appends exactly what a 200 page carries, gives the loop's verdict, and moves to the next page only after a non-empty page that did not reach the limit |
| `Fetch.GetStargazers` | scrape_stargazers.py:90-154 | the `while` loop from the resume page with an empty list returns the accumulation, the page numbers requested and the ending that `FetchRun` gives |
| `Enrich.Enrichment` | scrape_stargazers.py:170-205 | the filter loop sends at most one profile request per fetched record and accepts at most one record per request |
| `Enrich.EnrichmentIsTruncatedReference` | scrape_stargazers.py:170-205 | the accepted records are exactly the first `Room` records of the eligible, successfully fetched records in fetch order: the limit only truncates |
| `Enrich.AcceptedAboveWatermark` | scrape_stargazers.py:176-185 | with a watermark, every accepted record was starred strictly after it, so an equal timestamp is never accepted |
| `Enrich.AcceptedWithinLimit` | scrape_stargazers.py:186-187 | with a limit set, at most that many records are accepted, and none for a negative limit |
| `Enrich.UnlimitedAcceptsAllEligible` | scrape_stargazers.py:182-205 | without a limit, every eligible record whose profile request succeeds is accepted in order; with no watermark as well, every fetched record with a successful request is |
| `Enrich.DroppedRecordIsInvisible` | scrape_stargazers.py:196-205 | a record whose profile request fails, or that is not newer than the watermark, adds nothing and changes nothing for the records after it |
| `Enrich.RequestedArePrefixOfEligible` | scrape_stargazers.py:182-195 | profile requests go only to eligible records, in order, and form a prefix of them (all of them with no limit); no more records are accepted than requested |
| `Enrich.AllFoundRequestedEqualsAccepted` | scrape_stargazers.py:192-205 | when every profile request succeeds, each request yields exactly one accepted record |
| `Enrich.LimitTwoOfFiveNew` | scrape_stargazers.py:186-205 | with limit 2 and five new records whose profiles are all found, exactly the first two are requested and accepted |
| `Enrich.AbsorbedStep` | scrape_stargazers.py:182-205 | one loop step on an eligible record below the limit: the login is requested, and the record is appended only if its profile was found |
| `Enrich.EnrichStargazers` | scrape_stargazers.py:167-212 | the `for` loop with its early `break` returns exactly the accepted records and requested logins of `Enrichment` |
| `Enrich.ExtractStargazerInfo` | scrape_stargazers.py:157-212 | the profiles returned are exactly what the filter loop accepts from the records that the page loop (`FetchRun` from the resume page for `known`) returns; all of them are above the watermark and within the limit |
| `Snapshot.Saved` | scrape_stargazers.py:41-87 | the new artifact is never empty and begins with the prior artifact's lines |
| `Snapshot.SavedKeepsPrior` | scrape_stargazers.py:51-70 | the new artifact starts with the prior artifact's lines unchanged, and a header is written exactly when the copy is empty, including when there is no prior artifact |
| `Snapshot.SavedRows` | scrape_stargazers.py:72-85 | the rows read back from the new artifact are the prior rows followed by the new records in their given order |
| `Snapshot.AsLinesRoundTrip` | scrape_stargazers.py:72-85 | the data rows written for the new records read back as those records |
| `Snapshot.SavedIsWellFormed` | scrape_stargazers.py:51-85 | saving from no artifact or from a well-formed one gives a table with the header first and only data rows after it |
| `Snapshot.SaveStargazerData` | scrape_stargazers.py:41-87 | the copy, the header rule and the row-by-row append loop produce exactly `Saved` |
| `Snapshot.MaxStarredAt` | scrape_stargazers.py:37 | the result is absent only for no rows; otherwise it bounds every row's `starred_at` and equals one of them |
| `Snapshot.GetLatestStargazerData` | scrape_stargazers.py:31-38 | with no artifact, no watermark and count 0; otherwise the count is the number of rows, and the watermark is the latest `starred_at` of the rows, present exactly when there are rows |
| `Snapshot.WatermarkMonotonic` | scrape_stargazers.py:31-85 | saving never lowers the watermark, and the count grows by exactly the number of new records |
| `Snapshot.LatestAsWritten` | scrape_stargazers.py:31-38 | as written, on an artifact that `save_stargazer_data` could have written: no artifact gives `None` and count 0; a table with rows gives the latest `starred_at` (the corrected watermark) and the number of rows; the cell is NaN exactly when the artifact holds no rows |
| `Snapshot.ParseWatermarkAsWritten` | scrape_stargazers.py:176-180 | the next run's parsing of the watermark fails exactly on a NaN cell; `None` gives no watermark and a timestamp parses to itself |
| `Snapshot.HeaderOnlySnapshotBreaksNextRun` | scrape_stargazers.py:35-38 | a first run that accepts nothing saves a header-only table, whose watermark reads as NaN and fails to parse (the parse runs for each fetched record, so a next run that fetches one raises); the corrected reading gives no watermark and count 0 |
| `Run.NewRecords` | scrape_stargazers.py:229-250 | the records a run adds are all strictly newer than the snapshot's watermark, and no more than the limit |
| `Run.SavedRunFacts` | scrape_stargazers.py:31-85 | saving such records keeps the table well-formed, grows the count by no more than the limit, never lowers the watermark, and every added row is strictly newer than the prior watermark |
| `Run.IncrementalRun` | scrape_stargazers.py:229-255 | one run with the corrected reading of the prior artifact: the new artifact is the prior one followed by the rows of exactly the records the filter loop accepts from what the page loop gathers from the resume page, with the prior watermark; it is append-only and well-formed; it never lowers the watermark; with a limit it adds at most that many rows; every added row is strictly newer than the prior watermark |
| `Run.FirstRunRecordsEveryFoundStargazer` | scrape_stargazers.py:229-255 | a first run without a limit saves, in fetch order, exactly the fetched stargazers whose profile request succeeds, and each of them |
| `Run.EqualTimestampIsSkipped` | scrape_stargazers.py:182-185 | with a one-row prior snapshot at `t0`, fetched records at `t0` and at a later `t1` lead to exactly one new row (the `t1` one) and two rows in all |

## Findings

| source | as written | input that shows it | evidently intended | confidence | as-written member | corrected member |
|---|---|---|---|---|---|---|
| scrape_stargazers.py:35-38 | For a table that holds only the header, `df["Starred at"].max()` is NaN. NaN is truthy, so the next run hands it to `strptime` (line 177) and raises on the first fetched record. | A first run that accepts no record (the repository has no stargazers yet, every profile request fails, or the limit is negative), then any run that fetches at least one record. | A table with no rows behaves like no table: no watermark, count 0. | medium (not executed; rests on pandas returning NaN for the maximum of an empty column) | `Snapshot.LatestAsWritten`, `Snapshot.HeaderOnlySnapshotBreaksNextRun` | `Snapshot.GetLatestStargazerData` |

## Left out

- HTTP requests, JSON decoding and header parsing: a page request is a scripted value, and a profile request is a map lookup. An empty JSON profile (falsy) and a non-200 status are both "login not in the map".
- The unbounded retry: the script is finite. When it runs out before any exit, the run ends as `Unfinished`, where the source would keep requesting.
- Fetch.GetStargazers: an exception is modelled as raised before the page is appended. In the source, an exception raised after `extend` (for example by the debug print on line 129 over a malformed item) re-requests the same page and appends it again. That is not modelled.
- Enrich.ExtractStargazerInfo: an exception during a profile request is not caught in the source and ends the whole run. The model has no such failure.
- Sleeps and clocks: the two list throttles (lines 111-119 and 137-144), the 5-second pause after an exception, and the 60-second pause after a profile request (lines 207-208) are left out. `ThrottleDelay` uses integer seconds where the source uses floats.
- Filesystem work: folder creation, choosing the latest artifact by creation time, the timestamped file name, and `shutil.copy`, which is a copy of a value here. The CSV writer's quoting and encoding, pandas' column types, and `None` fields written as empty cells are also left out.
- Snapshot.LatestAsWritten, Run.IncrementalRun: only artifacts that `save_stargazer_data` writes (a header line, then data lines) are read as prior artifacts. A zero-byte file, on which `pd.read_csv` raises, or a table without its header, which pandas misreads, is outside both contracts; the corrected reading `GetLatestStargazerData` reads any line sequence by its data lines alone.
- Run.IncrementalRun: the run reads the prior artifact with the corrected `GetLatestStargazerData`. On a header-only prior artifact, the source's run gets NaN as its watermark and raises at line 177 on the first fetched record, before anything is saved (see "## Findings"); the model saves a new artifact instead.
- `argparse`, the progress prints and the final printing of the table. `main` is modelled only for how it composes the three steps.
- The two uses of `limit` follow the code. The page loop counts fetched records and the filter loop counts accepted ones, and both read `0` as "no cap".
