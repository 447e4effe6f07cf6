/**
 The incremental filter and enricher: each fetched record newer than the watermark
 gets one detail request, and each successful one becomes an enriched record, until
 the per-run limit of newly accepted records is reached. The detail endpoint is
 replaced by a map from login to profile; a login that is not in the map stands for a
 request that did not answer 200 with a non-empty profile.
 */
module Enrich {
  import opened Records
  import Fetch

  /** A record is new when there is no watermark or it was starred strictly after it. */
  predicate Eligible(r: StarRecord, watermark: Option<Timestamp>)
  {
    watermark.None? || r.starredAt > watermark.value
  }

  /** The limit of newly accepted records is reached. */
  predicate AtCap(limit: Option<int>, accepted: nat)
  {
    Capped(limit) && accepted >= limit.value
  }

  /** What the filter loop produces: the accepted records and the logins whose detail
      was requested, both in fetch order. */
  datatype Pass = Pass(accepted: seq<Enriched>, requested: seq<string>)

  /** The filter loop over `rs`, with `taken` records accepted before it: at most one
      detail request per record, and at most one accepted record per request. */
  function Enrichment(rs: seq<StarRecord>, watermark: Option<Timestamp>, limit: Option<int>,
                      details: map<string, Profile>, taken: nat): (p: Pass)
    ensures |p.accepted| <= |p.requested| <= |rs|
    decreases |rs|
  {
    if rs == [] then Pass([], [])
    else if !Eligible(rs[0], watermark) then Enrichment(rs[1..], watermark, limit, details, taken)
    else if AtCap(limit, taken) then Pass([], [])
    else if rs[0].login in details then
      var rest := Enrichment(rs[1..], watermark, limit, details, taken + 1);
      Pass([Enriched(details[rs[0].login], rs[0].starredAt)] + rest.accepted, [rs[0].login] + rest.requested)
    else
      var rest := Enrichment(rs[1..], watermark, limit, details, taken);
      Pass(rest.accepted, [rs[0].login] + rest.requested)
  }

  /** Reference definition without the limit: every eligible record whose detail request
      succeeds, enriched with its own `starred_at`, in fetch order. */
  function EligibleFetched(rs: seq<StarRecord>, watermark: Option<Timestamp>, details: map<string, Profile>): seq<Enriched>
  {
    if rs == [] then []
    else
      (if Eligible(rs[0], watermark) && rs[0].login in details
       then [Enriched(details[rs[0].login], rs[0].starredAt)] else [])
      + EligibleFetched(rs[1..], watermark, details)
  }

  /** The logins of the eligible records, in fetch order. */
  function EligibleLogins(rs: seq<StarRecord>, watermark: Option<Timestamp>): seq<string>
  {
    if rs == [] then []
    else (if Eligible(rs[0], watermark) then [rs[0].login] else []) + EligibleLogins(rs[1..], watermark)
  }

  /** How many more records the limit admits after `taken`, out of `available`. */
  function Room(limit: Option<int>, taken: nat, available: nat): nat
  {
    if Capped(limit) then Min(available, Max(limit.value - taken, 0)) else available
  }

  lemma {:induction false} EligibleFetchedAppend(a: seq<StarRecord>, b: seq<StarRecord>,
                                                 watermark: Option<Timestamp>, details: map<string, Profile>)
    ensures EligibleFetched(a + b, watermark, details) == EligibleFetched(a, watermark, details) + EligibleFetched(b, watermark, details)
  {
    if a == [] {
      assert a + b == b;
    } else {
      assert (a + b)[0] == a[0] && (a + b)[1..] == a[1..] + b;
      EligibleFetchedAppend(a[1..], b, watermark, details);
    }
  }

  /** Every record of the reference list was starred strictly after the watermark. */
  lemma {:induction false} EligibleFetchedAboveWatermark(rs: seq<StarRecord>, watermark: Option<Timestamp>,
                                                         details: map<string, Profile>)
    ensures forall e :: e in EligibleFetched(rs, watermark, details) ==>
              watermark.None? || e.starredAt > watermark.value
  {
    if rs != [] {
      EligibleFetchedAboveWatermark(rs[1..], watermark, details);
    }
  }

  lemma RoomStep(limit: Option<int>, taken: nat, n: nat)
    requires !AtCap(limit, taken)
    ensures Room(limit, taken, n + 1) == 1 + Room(limit, taken + 1, n)
  {
  }

  lemma TruncateCons(e: Enriched, rest: seq<Enriched>, k: nat)
    requires k <= |rest|
    ensures ([e] + rest)[..k + 1] == [e] + rest[..k]
  {
  }

  /** The central characterization: the loop accepts exactly the first `Room` records of
      the reference list. The limit only truncates, a failed detail request only drops its
      own record, and the loop stops as soon as the limit of accepted records is reached. */
  lemma {:induction false} EnrichmentIsTruncatedReference(rs: seq<StarRecord>, watermark: Option<Timestamp>,
                                                          limit: Option<int>, details: map<string, Profile>, taken: nat)
    ensures var reference := EligibleFetched(rs, watermark, details);
      Enrichment(rs, watermark, limit, details, taken).accepted == reference[..Room(limit, taken, |reference|)]
    decreases |rs|
  {
    if rs != [] {
      var reference := EligibleFetched(rs, watermark, details);
      var rest := EligibleFetched(rs[1..], watermark, details);
      if !Eligible(rs[0], watermark) || (!AtCap(limit, taken) && rs[0].login !in details) {
        assert reference == rest;
        EnrichmentIsTruncatedReference(rs[1..], watermark, limit, details, taken);
      } else if AtCap(limit, taken) {
        assert Room(limit, taken, |reference|) == 0;
      } else {
        EnrichmentIsTruncatedReference(rs[1..], watermark, limit, details, taken + 1);
        var e := Enriched(details[rs[0].login], rs[0].starredAt);
        assert reference == [e] + rest;
        RoomStep(limit, taken, |rest|);
        TruncateCons(e, rest, Room(limit, taken + 1, |rest|));
      }
    }
  }

  /** Every accepted record was starred strictly after the watermark; in particular a
      record whose timestamp equals the watermark is never accepted. */
  lemma AcceptedAboveWatermark(rs: seq<StarRecord>, watermark: Option<Timestamp>, limit: Option<int>,
                               details: map<string, Profile>)
    ensures forall e :: e in Enrichment(rs, watermark, limit, details, 0).accepted ==>
              watermark.None? || e.starredAt > watermark.value
  {
    var reference := EligibleFetched(rs, watermark, details);
    EnrichmentIsTruncatedReference(rs, watermark, limit, details, 0);
    EligibleFetchedAboveWatermark(rs, watermark, details);
    forall e | e in reference[..Room(limit, 0, |reference|)]
      ensures e in reference
    {
    }
  }

  /** With a limit set, at most that many records are accepted (none for a negative limit). */
  lemma AcceptedWithinLimit(rs: seq<StarRecord>, watermark: Option<Timestamp>, limit: Option<int>,
                            details: map<string, Profile>)
    ensures Capped(limit) ==> |Enrichment(rs, watermark, limit, details, 0).accepted| <= Max(limit.value, 0)
  {
    EnrichmentIsTruncatedReference(rs, watermark, limit, details, 0);
  }

  /** Without a limit every eligible record whose detail request succeeds is accepted, in
      fetch order; with no watermark as well (a first run), that is every fetched record
      whose detail request succeeds. */
  lemma UnlimitedAcceptsAllEligible(rs: seq<StarRecord>, watermark: Option<Timestamp>, limit: Option<int>,
                                    details: map<string, Profile>)
    requires !Capped(limit)
    ensures Enrichment(rs, watermark, limit, details, 0).accepted == EligibleFetched(rs, watermark, details)
    ensures watermark.None? ==>
              forall i :: 0 <= i < |rs| && rs[i].login in details ==>
                Enriched(details[rs[i].login], rs[i].starredAt) in Enrichment(rs, watermark, limit, details, 0).accepted
  {
    var reference := EligibleFetched(rs, watermark, details);
    EnrichmentIsTruncatedReference(rs, watermark, limit, details, 0);
    assert reference[..|reference|] == reference;
    if watermark.None? {
      forall i | 0 <= i < |rs| && rs[i].login in details
        ensures Enriched(details[rs[i].login], rs[i].starredAt) in reference
      {
        assert rs == rs[..i] + [rs[i]] + rs[i + 1..];
        EligibleFetchedAppend(rs[..i] + [rs[i]], rs[i + 1..], watermark, details);
        EligibleFetchedAppend(rs[..i], [rs[i]], watermark, details);
      }
    }
  }

  /** A record whose detail request fails, or that is not newer than the watermark, adds
      nothing and changes nothing for the records after it. */
  lemma DroppedRecordIsInvisible(a: seq<StarRecord>, r: StarRecord, b: seq<StarRecord>,
                                 watermark: Option<Timestamp>, limit: Option<int>, details: map<string, Profile>)
    requires !Eligible(r, watermark) || r.login !in details
    ensures Enrichment(a + [r] + b, watermark, limit, details, 0).accepted ==
            Enrichment(a + b, watermark, limit, details, 0).accepted
  {
    EnrichmentIsTruncatedReference(a + [r] + b, watermark, limit, details, 0);
    EnrichmentIsTruncatedReference(a + b, watermark, limit, details, 0);
    EligibleFetchedAppend(a + [r], b, watermark, details);
    EligibleFetchedAppend(a, [r], watermark, details);
    EligibleFetchedAppend(a, b, watermark, details);
    assert EligibleFetched([r], watermark, details) == [];
  }

  /** Detail requests are made only for eligible records, in fetch order, and the loop
      never skips one it has not stopped before: the requested logins are a prefix of the
      eligible logins, and all of them when there is no limit. No more records are
      accepted than requested. */
  lemma {:induction false} RequestedArePrefixOfEligible(rs: seq<StarRecord>, watermark: Option<Timestamp>,
                                                        limit: Option<int>, details: map<string, Profile>, taken: nat)
    ensures var p := Enrichment(rs, watermark, limit, details, taken);
      p.requested <= EligibleLogins(rs, watermark) &&
      (!Capped(limit) ==> p.requested == EligibleLogins(rs, watermark)) &&
      |p.accepted| <= |p.requested|
    decreases |rs|
  {
    if rs != [] {
      if Eligible(rs[0], watermark) && !AtCap(limit, taken) {
        RequestedArePrefixOfEligible(rs[1..], watermark, limit, details, if rs[0].login in details then taken + 1 else taken);
      } else if !Eligible(rs[0], watermark) {
        RequestedArePrefixOfEligible(rs[1..], watermark, limit, details, taken);
      }
    }
  }

  /** When every detail request succeeds, each request yields exactly one accepted record. */
  lemma {:induction false} AllFoundRequestedEqualsAccepted(rs: seq<StarRecord>, watermark: Option<Timestamp>,
                                                           limit: Option<int>, details: map<string, Profile>, taken: nat)
    requires forall i :: 0 <= i < |rs| ==> rs[i].login in details
    ensures var p := Enrichment(rs, watermark, limit, details, taken); |p.requested| == |p.accepted|
    decreases |rs|
  {
    if rs != [] {
      assert rs[0].login in details;
      var taken' := if Eligible(rs[0], watermark) then taken + 1 else taken;
      AllFoundRequestedEqualsAccepted(rs[1..], watermark, limit, details, taken');
    }
  }

  /** With a limit of 2 and five new records whose details are all found, exactly the
      first two are requested and accepted; the other three are neither requested nor
      recorded. */
  lemma LimitTwoOfFiveNew(rs: seq<StarRecord>, watermark: Option<Timestamp>, details: map<string, Profile>)
    requires |rs| == 5
    requires forall i :: 0 <= i < 5 ==> Eligible(rs[i], watermark) && rs[i].login in details
    ensures var p := Enrichment(rs, watermark, Some(2), details, 0);
      p.accepted == [Enriched(details[rs[0].login], rs[0].starredAt), Enriched(details[rs[1].login], rs[1].starredAt)] &&
      p.requested == [rs[0].login, rs[1].login]
  {
    var p := Enrichment(rs, watermark, Some(2), details, 0);
    EnrichmentIsTruncatedReference(rs, watermark, Some(2), details, 0);
    RequestedArePrefixOfEligible(rs, watermark, Some(2), details, 0);
    AllFoundRequestedEqualsAccepted(rs, watermark, Some(2), details, 0);
    assert rs == [rs[0], rs[1]] + rs[2..];
    EligibleFetchedAppend([rs[0], rs[1]], rs[2..], watermark, details);
    assert [rs[0], rs[1]][1..] == [rs[1]];
    var logins := EligibleLogins(rs, watermark);
    assert logins[..2] == [rs[0].login, rs[1].login] by {
      assert rs[1..][1..] == rs[2..];
    }
    assert p.requested == logins[..2];
  }

  /** The loop's output so far, followed by what the rest of the loop adds. */
  function Absorbed(detailed: seq<Enriched>, requested: seq<string>, p: Pass): Pass
  {
    Pass(detailed + p.accepted, requested + p.requested)
  }

  /** One step of `Enrichment`, as seen from a loop that has already produced
      `detailed` and `requested`. */
  lemma AbsorbedStep(detailed: seq<Enriched>, requested: seq<string>, rs: seq<StarRecord>,
                     watermark: Option<Timestamp>, limit: Option<int>, details: map<string, Profile>, taken: nat)
    requires rs != [] && Eligible(rs[0], watermark) && !AtCap(limit, taken)
    ensures var r := rs[0];
      Absorbed(detailed, requested, Enrichment(rs, watermark, limit, details, taken)) ==
        if r.login in details then
          Absorbed(detailed + [Enriched(details[r.login], r.starredAt)], requested + [r.login],
                   Enrichment(rs[1..], watermark, limit, details, taken + 1))
        else
          Absorbed(detailed, requested + [r.login], Enrichment(rs[1..], watermark, limit, details, taken))
  {
  }

  /** The filter loop: one pass over the fetched records in order. */
  method EnrichStargazers(stargazers: seq<StarRecord>, watermark: Option<Timestamp>, limit: Option<int>,
                          details: map<string, Profile>)
    returns (detailed: seq<Enriched>, requested: seq<string>)
    ensures Pass(detailed, requested) == Enrichment(stargazers, watermark, limit, details, 0)
  {
    ghost var full := Enrichment(stargazers, watermark, limit, details, 0);
    detailed, requested := [], [];
    var count: nat := 0;
    var i := 0;
    assert full == Absorbed(detailed, requested, Enrichment(stargazers[i..], watermark, limit, details, count));
    while i < |stargazers|
      invariant 0 <= i <= |stargazers|
      invariant count == |detailed|
      invariant full == Absorbed(detailed, requested, Enrichment(stargazers[i..], watermark, limit, details, count))
    {
      var r := stargazers[i];
      assert stargazers[i..][0] == r && stargazers[i..][1..] == stargazers[i + 1..];
      if Eligible(r, watermark) {
        if AtCap(limit, count) {
          break;
        }
        AbsorbedStep(detailed, requested, stargazers[i..], watermark, limit, details, count);
        requested := requested + [r.login];
        if r.login in details {
          detailed := detailed + [Enriched(details[r.login], r.starredAt)];
          count := count + 1;
        }
      }
      i := i + 1;
    }
    assert Enrichment(stargazers[i..], watermark, limit, details, count) == Pass([], []);
    assert detailed + [] == detailed && requested + [] == requested;
  }

  /** `extract_stargazer_info`: the page loop from the resume page, then the filter loop
      over everything it returned. */
  method ExtractStargazerInfo(known: nat, watermark: Option<Timestamp>, limit: Option<int>,
                              script: seq<Fetch.PageResponse>, details: map<string, Profile>)
    returns (detailed: seq<Enriched>)
    ensures detailed == Enrichment(Fetch.FetchRun(Fetch.StartPage(known), [], script, limit).stargazers,
                                   watermark, limit, details, 0).accepted
    ensures forall e :: e in detailed ==> watermark.None? || e.starredAt > watermark.value
    ensures Capped(limit) ==> |detailed| <= Max(limit.value, 0)
  {
    var stargazers, pages, stop := Fetch.GetStargazers(known, limit, script);
    var requested;
    detailed, requested := EnrichStargazers(stargazers, watermark, limit, details);
    AcceptedAboveWatermark(stargazers, watermark, limit, details);
    AcceptedWithinLimit(stargazers, watermark, limit, details);
  }
}
