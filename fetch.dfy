/**
 The paginated fetch of the stargazers list. The HTTP client is replaced by a finite
 script of page responses, consumed one per request; the loop requests pages from a
 start page derived from the number of records already known.
 */
module Fetch {
  import opened Records

  /** What one page request yields: a response with its status and (for status 200)
      its decoded item list, or an exception raised while requesting it. */
  datatype PageResponse = Response(status: int, items: seq<StarRecord>) | Raised

  /** How a run of the fetch loop ended. `Unfinished` is the model's own ending: the
      script of responses ran out before any of the loop's exits was taken. */
  datatype Stop = Exhausted | LimitReached | Aborted(status: int) | Unfinished

  /** The first page to request: the page that holds record number `known + 1`. */
  function StartPage(known: nat): (page: nat)
    ensures page >= 1
    ensures (page - 1) * PageSize <= known < page * PageSize
  {
    if known != 0 then known / PageSize + 1 else 1
  }

  lemma StartPageResumesAt45()
    ensures StartPage(45) == 2 && StartPage(0) == 1 && StartPage(30) == 2
  {
  }

  /** The length of the pause taken when the quota is nearly used up or exceeded:
      until ten seconds past the reset instant, and never less than ten seconds. */
  function ThrottleDelay(reset: int, now: int): (delay: int)
    ensures delay >= 10
    ensures now + delay >= reset + 10
    ensures delay == 10 || now + delay == reset + 10
  {
    Max(reset - now, 0) + 10
  }

  /** The records a response adds to the accumulation. */
  function Contribution(r: PageResponse): seq<StarRecord>
  {
    if r.Response? && r.status == 200 then r.items else []
  }

  /** A status-200 page with at least one item: the only response that moves to the next page. */
  predicate Advances(r: PageResponse)
  {
    r.Response? && r.status == 200 && r.items != []
  }

  /** Everything the responses `rs` contribute, in order. */
  function Gathered(rs: seq<PageResponse>): seq<StarRecord>
  {
    if rs == [] then [] else Contribution(rs[0]) + Gathered(rs[1..])
  }

  /** The item lists of the non-empty status-200 pages among `rs`, in order. */
  function OkPages(rs: seq<PageResponse>): seq<seq<StarRecord>>
  {
    if rs == [] then []
    else (if Advances(rs[0]) then [rs[0].items] else []) + OkPages(rs[1..])
  }

  function Flatten(pss: seq<seq<StarRecord>>): seq<StarRecord>
  {
    if pss == [] then [] else pss[0] + Flatten(pss[1..])
  }

  /** How the loop ends on response `r`, given the accumulation `gathered` after it;
      `Unfinished` when the loop goes on to another request. */
  function Verdict(r: PageResponse, gathered: seq<StarRecord>, limit: Option<int>): Stop
  {
    match r
    case Raised => Unfinished
    case Response(status, items) =>
      if status == 200 then
        if items == [] then Exhausted
        else if Capped(limit) && |gathered| >= limit.value then LimitReached
        else Unfinished
      else if status == 403 then Unfinished
      else Aborted(status)
  }

  /** The loop ends in exactly one of three ways: an empty page, the limit reached after
      a non-empty page, or a status other than 200 and 403; a 403 or an exception never
      ends it. */
  lemma VerdictCases(r: PageResponse, gathered: seq<StarRecord>, limit: Option<int>)
    ensures Verdict(r, gathered, limit) == Exhausted <==> r == Response(200, [])
    ensures Verdict(r, gathered, limit) == LimitReached <==>
              Advances(r) && Capped(limit) && |gathered| >= limit.value
    ensures Verdict(r, gathered, limit).Aborted? <==> r.Response? && r.status != 200 && r.status != 403
    ensures Verdict(r, gathered, limit).Aborted? ==> Verdict(r, gathered, limit).status == r.status
    ensures r.Raised? || (r.Response? && r.status == 403) ==> Verdict(r, gathered, limit) == Unfinished
  {
  }

  /** What one run of the page loop produces: the accumulation, the page number of each
      request made (one per response consumed) and how the loop ended. */
  datatype Trace = Trace(stargazers: seq<StarRecord>, pages: seq<nat>, stop: Stop)

  /** The page loop from page `page` with accumulation `acc`, fed the responses `rs`:
      one request per response consumed, and at least one when there is a response. */
  function FetchRun(page: nat, acc: seq<StarRecord>, rs: seq<PageResponse>, limit: Option<int>): (t: Trace)
    ensures |t.pages| <= |rs|
    ensures rs != [] ==> |t.pages| > 0
    decreases |rs|
  {
    if rs == [] then Trace(acc, [], Unfinished)
    else
      var next := acc + Contribution(rs[0]);
      var verdict := Verdict(rs[0], next, limit);
      if verdict != Unfinished then Trace(next, [page], verdict)
      else
        var t := FetchRun(page + (if Advances(rs[0]) then 1 else 0), next, rs[1..], limit);
        Trace(t.stargazers, [page] + t.pages, t.stop)
  }

  /** A run continued from requests already made for `earlier`. */
  function Resumed(earlier: seq<nat>, t: Trace): Trace
  {
    Trace(t.stargazers, earlier + t.pages, t.stop)
  }

  /** The accumulation is the concatenation of the item lists of the non-empty 200 pages;
      a 403, an exception, an empty page or another status adds nothing. */
  lemma {:induction false} GatheredIsConcatenationOfPages(rs: seq<PageResponse>)
    ensures Gathered(rs) == Flatten(OkPages(rs))
  {
    if rs != [] {
      GatheredIsConcatenationOfPages(rs[1..]);
      if Advances(rs[0]) {
        var pss := [rs[0].items] + OkPages(rs[1..]);
        assert pss[0] == rs[0].items && pss[1..] == OkPages(rs[1..]);
      } else {
        assert Contribution(rs[0]) == [];
        assert OkPages(rs) == OkPages(rs[1..]);
      }
    }
  }

  /** The loop consumes a prefix of the responses, and what it returns is the accumulation
      it started with followed by everything that prefix contributes: nothing is dropped
      or truncated, whichever way the loop ends. */
  lemma {:induction false} FetchRunAccumulates(page: nat, acc: seq<StarRecord>, rs: seq<PageResponse>, limit: Option<int>)
    ensures var t := FetchRun(page, acc, rs, limit);
      |t.pages| <= |rs| && t.stargazers == acc + Gathered(rs[..|t.pages|])
    decreases |rs|
  {
    var t := FetchRun(page, acc, rs, limit);
    if rs == [] {
      assert rs[..0] == [];
    } else {
      var next := acc + Contribution(rs[0]);
      if Verdict(rs[0], next, limit) != Unfinished {
        assert rs[..1][1..] == [];
      } else {
        var p' := page + (if Advances(rs[0]) then 1 else 0);
        FetchRunAccumulates(p', next, rs[1..], limit);
        var n := |FetchRun(p', next, rs[1..], limit).pages|;
        assert rs[..n + 1][1..] == rs[1..][..n];
      }
    }
  }

  /** Page numbering: after the first request (for `page`), the page number goes up by
      exactly one after a non-empty 200 page and stays the same (a retry) after anything
      else. */
  lemma {:induction false} FetchRunPages(page: nat, acc: seq<StarRecord>, rs: seq<PageResponse>, limit: Option<int>)
    ensures var t := FetchRun(page, acc, rs, limit);
      (|t.pages| > 0 ==> t.pages[0] == page) &&
      forall j :: 0 <= j < |t.pages| - 1 ==> t.pages[j + 1] == t.pages[j] + (if Advances(rs[j]) then 1 else 0)
    decreases |rs|
  {
    if rs != [] {
      var next := acc + Contribution(rs[0]);
      if Verdict(rs[0], next, limit) == Unfinished {
        FetchRunPages(page + (if Advances(rs[0]) then 1 else 0), next, rs[1..], limit);
      }
    }
  }

  /** How the loop ends: the last response consumed gives the verdict, and `Unfinished`
      only when every response was used. */
  lemma {:induction false} FetchRunStops(page: nat, acc: seq<StarRecord>, rs: seq<PageResponse>, limit: Option<int>)
    ensures var t := FetchRun(page, acc, rs, limit);
      (t.stop == Unfinished ==> |t.pages| == |rs|) &&
      (|t.pages| > 0 ==> t.stop == Verdict(rs[|t.pages| - 1], t.stargazers, limit))
    decreases |rs|
  {
    if rs != [] {
      var next := acc + Contribution(rs[0]);
      if Verdict(rs[0], next, limit) == Unfinished {
        FetchRunStops(page + (if Advances(rs[0]) then 1 else 0), next, rs[1..], limit);
      }
    }
  }

  /** No response before the last one consumed ends the loop: each of them, with what
      had accumulated by then, has the verdict `Unfinished`. */
  lemma {:induction false} FetchRunContinues(page: nat, acc: seq<StarRecord>, rs: seq<PageResponse>, limit: Option<int>)
    ensures var t := FetchRun(page, acc, rs, limit);
      forall j :: 0 <= j < |t.pages| - 1 ==> Verdict(rs[j], acc + Gathered(rs[..j + 1]), limit) == Unfinished
    decreases |rs|
  {
    if rs != [] {
      var next := acc + Contribution(rs[0]);
      if Verdict(rs[0], next, limit) == Unfinished {
        var p' := page + (if Advances(rs[0]) then 1 else 0);
        FetchRunContinues(p', next, rs[1..], limit);
        var t := FetchRun(p', next, rs[1..], limit);
        forall j | 0 <= j < |t.pages|
          ensures Verdict(rs[j], acc + Gathered(rs[..j + 1]), limit) == Unfinished
        {
          if j > 0 {
            assert rs[..j + 1] == [rs[0]] + rs[1..][..j];
            assert rs[..j + 1][1..] == rs[1..][..j];
          } else {
            assert rs[..1][1..] == [];
          }
        }
      }
    }
  }

  /** When the limit stops the loop, the records accumulated before the last page were
      either none or fewer than the limit: the overshoot is at most that one page. */
  lemma {:induction false} FetchRunOvershoot(page: nat, acc: seq<StarRecord>, rs: seq<PageResponse>, limit: Option<int>)
    requires acc == [] || !Capped(limit) || |acc| < limit.value
    ensures var t := FetchRun(page, acc, rs, limit);
      t.stop == LimitReached ==>
        (|t.pages| > 0 && |t.pages| <= |rs| && Advances(rs[|t.pages| - 1]) && Capped(limit) &&
         var before := |t.stargazers| - |rs[|t.pages| - 1].items|; before == 0 || before < limit.value)
    decreases |rs|
  {
    if rs != [] {
      var next := acc + Contribution(rs[0]);
      if Verdict(rs[0], next, limit) == Unfinished {
        FetchRunOvershoot(page + (if Advances(rs[0]) then 1 else 0), next, rs[1..], limit);
      }
    }
  }

  /** One pass of the loop body: the response to the request for `page` is inspected,
      a 200 page is appended, and the next page number and the loop's verdict are decided. */
  method HandleResponse(page: nat, stargazers: seq<StarRecord>, r: PageResponse, limit: Option<int>)
    returns (nextPage: nat, next: seq<StarRecord>, stop: Stop)
    ensures next == stargazers + Contribution(r)
    ensures stop == Verdict(r, next, limit)
    ensures stop == Unfinished ==> nextPage == page + (if Advances(r) then 1 else 0)
  {
    nextPage, next, stop := page, stargazers, Unfinished;
    match r {
      case Raised =>
      case Response(status, items) =>
        if status == 200 {
          if items == [] {
            stop := Exhausted;
          } else {
            next := next + items;
            if Capped(limit) && |next| >= limit.value {
              stop := LimitReached;
            } else {
              nextPage := page + 1;
            }
          }
        } else if status != 403 {
          stop := Aborted(status);
        }
    }
  }

  /** One step of `FetchRun`, as seen from a run that already made the requests `earlier`. */
  lemma ResumedStep(earlier: seq<nat>, page: nat, acc: seq<StarRecord>, rs: seq<PageResponse>, limit: Option<int>)
    requires rs != []
    ensures var next := acc + Contribution(rs[0]);
      var verdict := Verdict(rs[0], next, limit);
      Resumed(earlier, FetchRun(page, acc, rs, limit)) ==
        if verdict != Unfinished then Trace(next, earlier + [page], verdict)
        else Resumed(earlier + [page], FetchRun(page + (if Advances(rs[0]) then 1 else 0), next, rs[1..], limit))
  {
  }

  /** The page loop, from the resume page, with an empty accumulation. `pages` lists the
      page number of each request made; the accumulation is returned in every case. What
      the run promises is proved about `FetchRun` above. */
  method GetStargazers(known: nat, limit: Option<int>, script: seq<PageResponse>)
    returns (stargazers: seq<StarRecord>, pages: seq<nat>, stop: Stop)
    ensures Trace(stargazers, pages, stop) == FetchRun(StartPage(known), [], script, limit)
  {
    ghost var full := FetchRun(StartPage(known), [], script, limit);
    var page := StartPage(known);
    stargazers, pages, stop := [], [], Unfinished;
    assert full == Resumed(pages, FetchRun(page, stargazers, script, limit));
    var i := 0;
    while i < |script| && stop == Unfinished
      invariant 0 <= i <= |script|
      invariant stop == Unfinished ==> full == Resumed(pages, FetchRun(page, stargazers, script[i..], limit))
      invariant stop != Unfinished ==> full == Trace(stargazers, pages, stop)
    {
      ResumedStep(pages, page, stargazers, script[i..], limit);
      assert script[i..][0] == script[i] && script[i..][1..] == script[i + 1..];
      pages := pages + [page];
      page, stargazers, stop := HandleResponse(page, stargazers, script[i], limit);
      i := i + 1;
    }
    assert stop == Unfinished ==> script[i..] == [];
  }
}
