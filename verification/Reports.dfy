/** Statistics, analytics and history of every reachable database. */
module Reports {
  import opened Common
  import opened Schema
  import opened FraudEngine
  import opened Verification
  import opened Traffic
  import opened Submissions
  import opened Dashboard
  import opened Averages
  import opened Paging

  /** Stored requests and results correspond one to one, under distinct ids. */
  ghost predicate Paired(requests: seq<RequestRow>, results: seq<ResultRow>) {
    && |requests| == |results|
    && (forall k :: 0 <= k < |requests| ==> CleanRow(requests[k], results[k]))
    && forall k, l :: 0 <= k < l < |requests| ==> requests[k].id != requests[l].id
  }

  ghost predicate AllInBand(recs: seq<Rec>) {
    forall i :: 0 <= i < |recs| ==> InBand(recs[i])
  }

  lemma {:induction false} FoundAt(requests: seq<RequestRow>, results: seq<ResultRow>, k: nat)
    requires Paired(requests, results) && k < |requests|
    ensures FindRequest(requests, results[k].requestId) == k
  {
    assert CleanRow(requests[k], results[k]);
  }

  lemma {:induction false} JoinOneMore(requests: seq<RequestRow>, results: seq<ResultRow>, n: nat, org: Id)
    requires Paired(requests, results) && n < |results|
    ensures var rec := Rec(requests[n].createdAt, results[n].decision, results[n].riskScore);
      && InBand(rec)
      && Joined(requests, results[..n + 1], org)
         == Joined(requests, results[..n], org) + (if requests[n].orgId == org then [rec] else [])
      && OrgRequests(requests[..n + 1], org)
         == OrgRequests(requests[..n], org) + (if requests[n].orgId == org then [requests[n]] else [])
  {
    assert results[..n + 1][..n] == results[..n] && requests[..n + 1][..n] == requests[..n];
    assert CleanRow(requests[n], results[n]);
    FoundAt(requests, results, n);
    hide Paired, FindRequest;
  }

  lemma {:induction false} AppendInBand(recs: seq<Rec>, rec: Rec)
    requires AllInBand(recs) && InBand(rec)
    ensures AllInBand(recs + [rec])
  {
    hide InBand;
  }

  lemma {:induction false} NothingJoined(requests: seq<RequestRow>, results: seq<ResultRow>, org: Id)
    ensures Joined(requests, results[..0], org) == [] && OrgRequests(requests[..0], org) == [] && AllInBand([])
  {
  }

  lemma {:induction false} JoinIsPairing(requests: seq<RequestRow>, results: seq<ResultRow>, n: nat, org: Id)
    requires Paired(requests, results) && n <= |results| == |requests|
    ensures |Joined(requests, results[..n], org)| == |OrgRequests(requests[..n], org)|
    ensures AllInBand(Joined(requests, results[..n], org))
  {
    hide *;
    if n == 0 {
      NothingJoined(requests, results, org);
    } else {
      JoinIsPairing(requests, results, n - 1, org);
      JoinOneMore(requests, results, n - 1, org);
      if requests[n - 1].orgId == org {
        AppendInBand(Joined(requests, results[..n - 1], org),
                     Rec(requests[n - 1].createdAt, results[n - 1].decision, results[n - 1].riskScore));
      } else {
        assert Joined(requests, results[..n], org) == Joined(requests, results[..n - 1], org);
      }
    }
  }

  lemma {:induction false} SinceInBand(recs: seq<Rec>, since: int)
    requires AllInBand(recs)
    ensures AllInBand(Since(recs, since))
  {
    hide InBand;
    if recs == [] {
    } else {
      SinceInBand(recs[..|recs| - 1], since);
    }
  }

  lemma {:induction false} InBandFacts(recs: seq<Rec>)
    requires AllInBand(recs)
    ensures ThreeDecisions(recs) && AllWithin(recs, 0.0, 100.0)
    ensures forall day :: ScoresWithin(recs, day, 0.0, 100.0)
  {
  }

  lemma {:induction false} ReachableJoin(env: Env, seeds: seq<FraudRule>, run: seq<Event>, org: Id)
    requires FreshIds(run)
    ensures var db := SysAfter(env, seeds, run).db; var all := Joined(db.requests, db.results, org);
      |all| == |OrgRequests(db.requests, org)| && AllInBand(all)
  {
    RowsAreClean(env, seeds, run);
    var db := SysAfter(env, seeds, run).db;
    hide SysAfter;
    assert db.results[..|db.results|] == db.results && db.requests[..|db.requests|] == db.requests;
    JoinIsPairing(db.requests, db.results, |db.results|, org);
  }

  /** What an event adds to the organisation's scored submissions. */
  function ScoredBy(env: Env, sys: Sys, e: Event, org: Id): seq<Rec> {
    if e.Submit? && e.org == org then
      var score := EvaluationAt(env, sys, e).totalScore;
      [Rec(e.at, MakeDecision(score), score)]
    else []
  }

  /** The submissions of an organisation in a run, each with the score it was answered with. */
  function Scored(env: Env, seeds: seq<FraudRule>, run: seq<Event>, org: Id): seq<Rec> {
    if run == [] then []
    else
      var before := run[..|run| - 1];
      Scored(env, seeds, before, org) + ScoredBy(env, SysAfter(env, seeds, before), run[|run| - 1], org)
  }

  /** The records of the first `n` pairs of rows. */
  function PairRecs(requests: seq<RequestRow>, results: seq<ResultRow>, n: nat, org: Id): seq<Rec>
    requires n <= |requests| && n <= |results|
  {
    if n == 0 then []
    else
      PairRecs(requests, results, n - 1, org)
      + (if requests[n - 1].orgId == org then
           [Rec(requests[n - 1].createdAt, results[n - 1].decision, results[n - 1].riskScore)]
         else [])
  }

  lemma {:induction false} PairOneMore(requests: seq<RequestRow>, results: seq<ResultRow>, n: nat, org: Id)
    requires n < |requests| && n < |results|
    ensures PairRecs(requests, results, n + 1, org) == PairRecs(requests, results, n, org)
      + (if requests[n].orgId == org then
           [Rec(requests[n].createdAt, results[n].decision, results[n].riskScore)]
         else [])
  {
  }

  lemma {:induction false} JoinIsPairs(requests: seq<RequestRow>, results: seq<ResultRow>, n: nat, org: Id)
    requires Paired(requests, results) && n <= |results| == |requests|
    ensures Joined(requests, results[..n], org) == PairRecs(requests, results, n, org)
  {
    hide *;
    if n == 0 {
      NothingJoined(requests, results, org);
      NoPairs(requests, results, org);
    } else {
      JoinIsPairs(requests, results, n - 1, org);
      JoinOneMore(requests, results, n - 1, org);
      PairOneMore(requests, results, n - 1, org);
    }
  }

  lemma {:induction false} NoPairs(requests: seq<RequestRow>, results: seq<ResultRow>, org: Id)
    ensures PairRecs(requests, results, 0, org) == []
  {
  }

  lemma {:induction false} PairRecsFrame(requests: seq<RequestRow>, results: seq<ResultRow>, request: seq<RequestRow>,
                                         result: seq<ResultRow>, n: nat, org: Id)
    requires n <= |requests| && n <= |results|
    ensures PairRecs(requests + request, results + result, n, org) == PairRecs(requests, results, n, org)
  {
    if n == 0 {
    } else {
      PairRecsFrame(requests, results, request, result, n - 1, org);
    }
  }

  /** The rows an event leaves are paired into what it scored. */
  lemma {:induction false} PairsOfEvent(env: Env, sys: Sys, e: Event, request: seq<RequestRow>, result: seq<ResultRow>,
                                        org: Id)
    requires if e.Submit? then |request| == |result| == 1 && RowsOf(request[0], result[0], e, EvaluationAt(env, sys, e))
             else request == [] && result == []
    requires |sys.db.requests| == |sys.db.results|
    ensures var requests, results := sys.db.requests + request, sys.db.results + result;
      && |requests| == |results|
      && PairRecs(requests, results, |requests|, org)
         == PairRecs(sys.db.requests, sys.db.results, |sys.db.requests|, org) + ScoredBy(env, sys, e, org)
  {
    hide EvaluationAt, MakeDecision, PairRecs;
    var n := |sys.db.requests|;
    PairRecsFrame(sys.db.requests, sys.db.results, request, result, n, org);
    if e.Submit? {
      PairOneMore(sys.db.requests + request, sys.db.results + result, n, org);
    }
  }

  lemma {:induction false} PairsAreScored(env: Env, seeds: seq<FraudRule>, run: seq<Event>, org: Id)
    requires FreshIds(run)
    ensures var db := SysAfter(env, seeds, run).db;
      && |db.requests| == |db.results|
      && PairRecs(db.requests, db.results, |db.requests|, org) == Scored(env, seeds, run, org)
  {
    if run == [] {
    } else {
      hide SysAfter, Next, FreshIds, CleanRow, PairRecs, RowsOf, ScoredBy;
      var before, last := run[..|run| - 1], run[|run| - 1];
      LastIsNew(run);
      SysOneMore(env, seeds, run);
      PairsAreScored(env, seeds, before, org);
      var sys := SysAfter(env, seeds, before);
      var request, result := NextRows(env, sys, last);
      PairsOfEvent(env, sys, last, request, result, org);
    }
  }

  /** In every reachable database the dashboard's records are exactly the organisation's submissions, in order. */
  lemma {:induction false} RecordsAreSubmissions(env: Env, seeds: seq<FraudRule>, run: seq<Event>, org: Id)
    requires FreshIds(run)
    ensures var db := SysAfter(env, seeds, run).db;
      Joined(db.requests, db.results, org) == Scored(env, seeds, run, org)
  {
    RowsAreClean(env, seeds, run);
    PairsAreScored(env, seeds, run, org);
    var db := SysAfter(env, seeds, run).db;
    hide SysAfter, Scored, Joined, PairRecs;
    assert db.results[..|db.results|] == db.results;
    JoinIsPairs(db.requests, db.results, |db.results|, org);
  }

  /**
   In every reachable database the statistics of an organisation count each of its requests
   once, the three decisions add up to the total, the rate is a percentage, and the average
   is that of all its scores.
   */
  lemma {:induction false} ReachableStats(env: Env, seeds: seq<FraudRule>, run: seq<Event>, org: Id,
                       rows: seq<DecisionCount>, avg: Option<real>)
    requires FreshIds(run)
    requires var db := SysAfter(env, seeds, run).db; var all := Joined(db.requests, db.results, org);
      IsDecisionCounts(rows, all) && IsMean(avg, all)
    ensures var db := SysAfter(env, seeds, run).db; var s := GetStats(rows, avg);
      && s.total == |OrgRequests(db.requests, org)|
      && s.approved + s.review + s.rejected == s.total && 0.0 <= s.approvalRate <= 100.0
      && Times(s.approvalRate, s.total) == 100.0 * s.approved as real
      && Times(s.avgRiskScore, s.total) == TotalScore(Joined(db.requests, db.results, org)) as real
      && 0.0 <= s.avgRiskScore <= 100.0
  {
    var db := SysAfter(env, seeds, run).db;
    var all := Joined(db.requests, db.results, org);
    hide *;
    ReachableJoin(env, seeds, run, org);
    InBandFacts(all);
    StatsAgreeWithCounting(rows, avg, all);
    if all == [] {
      NoAverage(rows, avg, all);
    } else {
      StatsAverageWithin(rows, avg, all, 0.0, 100.0);
    }
  }

  lemma {:induction false} NoAverage(rows: seq<DecisionCount>, avg: Option<real>, recs: seq<Rec>)
    requires IsMean(avg, recs) && recs == []
    ensures GetStats(rows, avg).avgRiskScore == 0.0
  {
  }

  /**
   In every reachable database each point of the analytics is the sum of its three decisions,
   with an average in 0..100.
   */
  lemma {:induction false} ReachableAnalytics(env: Env, seeds: seq<FraudRule>, run: seq<Event>, org: Id,
                                              period: string, now: int,
                           data: seq<Point>, i: nat)
    requires FreshIds(run) && i < |data|
    requires SeriesOf(data, InPeriod(SysAfter(env, seeds, run).db, org, period, now))
    ensures data[i].total == data[i].approved + data[i].review + data[i].rejected
    ensures 0.0 <= data[i].avgRiskScore <= 100.0
  {
    hide *;
    PeriodInBand(env, seeds, run, org, period, now);
    PointOfBand(data, InPeriod(SysAfter(env, seeds, run).db, org, period, now), i);
  }

  /** In every reachable database a day's average is its mean, whatever the scores, exactly on even days. */
  lemma {:induction false} ReachableAverage(env: Env, seeds: seq<FraudRule>, run: seq<Event>, org: Id, period: string,
                                            now: int,
                         rows: seq<GroupRow>, day: int)
    requires FreshIds(run) && IsGroupQuery(rows, InPeriod(SysAfter(env, seeds, run).db, org, period, now))
    ensures var recs := InPeriod(SysAfter(env, seeds, run).db, org, period, now);
      EvenDay(recs, day) <==> AlwaysMean(recs, day)
  {
    var recs := InPeriod(SysAfter(env, seeds, run).db, org, period, now);
    hide *;
    PeriodInBand(env, seeds, run, org, period, now);
    BandsOf(recs);
    AverageIsMeanIff(rows, recs, day);
  }

  lemma {:induction false} PeriodInBand(env: Env, seeds: seq<FraudRule>, run: seq<Event>, org: Id, period: string,
                                        now: int)
    requires FreshIds(run)
    ensures AllInBand(InPeriod(SysAfter(env, seeds, run).db, org, period, now))
  {
    var db := SysAfter(env, seeds, run).db;
    ReachableJoin(env, seeds, run, org);
    SinceInBand(Joined(db.requests, db.results, org), now - PeriodDays(period) * DAY);
    hide SysAfter, Joined, Since, AllInBand, PeriodDays;
  }

  lemma {:induction false} BandsOf(recs: seq<Rec>)
    requires AllInBand(recs)
    ensures forall k :: 0 <= k < |recs| ==> InBand(recs[k])
  {
    hide InBand;
  }

  lemma {:induction false} PointOfBand(data: seq<Point>, recs: seq<Rec>, i: nat)
    requires AllInBand(recs) && SeriesOf(data, recs) && i < |data|
    ensures data[i].total == data[i].approved + data[i].review + data[i].rejected
    ensures 0.0 <= data[i].avgRiskScore <= 100.0
  {
    assert FitsDay(data[i], recs);
    InBandFacts(recs);
    hide OnDayCount, DecidedOnDay, ScoresWithin, AllInBand, ThreeDecisions, SeriesOf;
    assert ScoresWithin(recs, data[i].day, 0.0, 100.0);
  }

  lemma {:induction false} OrgRequestsDistinct(requests: seq<RequestRow>, org: Id)
    requires forall k, l :: 0 <= k < l < |requests| ==> requests[k].id != requests[l].id
    ensures DistinctRows(OrgRequests(requests, org))
    ensures forall r :: r in OrgRequests(requests, org) <==> r in requests && r.orgId == org
  {
    if requests == [] {
    } else {
      var before, last := requests[..|requests| - 1], requests[|requests| - 1];
      OrgRequestsDistinct(before, org);
      assert requests == before + [last];
      assert last !in before;
    }
  }

  /**
   In every reachable database, history pages fit together exactly when no page ends between two
   requests of equal time.
   */
  lemma {:induction false} ReachableHistoryPages(env: Env, seeds: seq<FraudRule>, run: seq<Event>, org: Id,
                                                 base: seq<RequestRow>,
                              size: nat)
    requires FreshIds(run) && size >= 1
    requires IsHistory(OrgRequests(SysAfter(env, seeds, run).db.requests, org), base)
    ensures var rows := OrgRequests(SysAfter(env, seeds, run).db.requests, org);
      NoTieAcrossPages(base, size) <==>
        forall orders :: Answers(rows, orders) && |orders| == TotalPages(|rows|, size) ==>
          IsHistory(rows, Pages(orders, |orders|, size))
  {
    RowsAreClean(env, seeds, run);
    var requests := SysAfter(env, seeds, run).db.requests;
    hide SysAfter;
    OrgRequestsDistinct(requests, org);
    PagesFitTogetherIff(OrgRequests(requests, org), base, size);
  }

  lemma {:induction false} TwoSubmissions(env: Env, seeds: seq<FraudRule>, org: Id, raw: Payload)
    returns (run: seq<Event>,
                       a: RequestRow, b: RequestRow)
    ensures FreshIds(run) && InOrder(run) && |run| == 2
    ensures SysAfter(env, seeds, run).db.requests == [a, b]
    ensures a.id != b.id && a.orgId == b.orgId == org && a.createdAt == b.createdAt
  {
    var first, second := Submit(0, org, raw, 1), Submit(0, org, raw, 2);
    run := [first, second];
    a := RequestRow(1, org, Normalised(raw), "completed", 0);
    b := RequestRow(2, org, Normalised(raw), "completed", 0);
    hide EvaluationAt, Normalised;
    assert run[..1] == [first] && [first][..0] == [];
    assert SysAfter(env, seeds, []).db.requests == [];
    assert SysAfter(env, seeds, [first]).db.requests == [a];
    assert SysAfter(env, seeds, run).db.requests == [a] + [b];
  }

  /** Two submissions of one moment: pages of one request can show the first twice and the second never. */
  lemma {:induction false} TieIsReachable(env: Env, seeds: seq<FraudRule>, org: Id, raw: Payload)
    returns (run: seq<Event>, a: RequestRow, orders: seq<seq<RequestRow>>)
    ensures FreshIds(run) && InOrder(run)
    ensures var rows := OrgRequests(SysAfter(env, seeds, run).db.requests, org);
      && Answers(rows, orders) && |orders| == TotalPages(|rows|, 1) == 2
      && Pages(orders, 2, 1) == [a, a] && !IsHistory(rows, [a, a])
  {
    var b;
    run, a, b := TwoSubmissions(env, seeds, org, raw);
    orders := [[a, b], [b, a]];
    hide *;
    OrgRequestsOfTwo(a, b, org);
    HistoriesOfTwo(a, b);
    PagesOfTwo(a, b);
  }

  lemma {:induction false} OrgRequestsOfTwo(a: RequestRow, b: RequestRow, org: Id)
    requires a.orgId == b.orgId == org
    ensures OrgRequests([a, b], org) == [a, b]
  {
    assert [a, b][..1] == [a] && [a][..0] == [];
    assert OrgRequests([a], org) == [a];
  }

  lemma {:induction false} HistoriesOfTwo(a: RequestRow, b: RequestRow)
    requires a.id != b.id && a.createdAt == b.createdAt
    ensures Answers([a, b], [[a, b], [b, a]]) && !IsHistory([a, b], [a, a])
  {
    assert multiset([b, a]) == multiset([a, b]);
    assert multiset([a, a])[b] == 0 && multiset([a, b])[b] == 1;
  }

  lemma {:induction false} PagesOfTwo(a: RequestRow, b: RequestRow)
    ensures Pages([[a, b], [b, a]], 2, 1) == [a, a] && TotalPages(|[a, b]|, 1) == 2
  {
    assert Page([a, b], 1, 1) == [a] && Page([b, a], 2, 1) == [a];
    assert Pages([[a, b], [b, a]], 1, 1) == [a];
  }
}
