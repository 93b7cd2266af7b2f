/** The dashboard: statistics of an organisation and the day-by-day analytics. */
module Dashboard {
  import opened Common
  import opened Schema
  import opened Grouping

  const DAY := 86400 * 1000

  /** One verification result joined with its request. */
  datatype Rec = Rec(createdAt: int, decision: string, score: int)

  function FindRequest(requests: seq<RequestRow>, id: Id): int {
    Find(requests, (r: RequestRow) => r.id == id)
  }

  /** The join of results and requests, restricted to an organisation. */
  function Joined(requests: seq<RequestRow>, results: seq<ResultRow>, org: Id): seq<Rec> {
    if results == [] then []
    else
      var last := results[|results| - 1];
      var i := FindRequest(requests, last.requestId);
      Joined(requests, results[..|results| - 1], org)
      + (if i >= 0 && requests[i].orgId == org then [Rec(requests[i].createdAt, last.decision, last.riskScore)] else [])
  }

  function PeriodDays(period: string): int {
    if period == "7d" then 7 else if period == "30d" then 30 else if period == "90d" then 90 else 30
  }

  /** The records of a period, each as often as among all, are those created in its last 7, 30 or 90 days. */
  lemma {:induction false} PeriodIs(db: Tables, org: Id, period: string, now: int, r: Rec)
    ensures var days := if period == "7d" then 7 else if period == "90d" then 90 else 30;
      multiset(InPeriod(db, org, period, now))[r]
      == if r.createdAt >= now - days * (86400 * 1000) then multiset(Joined(db.requests, db.results, org))[r] else 0
  {
    hide *;
    PeriodStarts(period, now);
    SinceCounts(Joined(db.requests, db.results, org), now - PeriodDays(period) * DAY, r);
    InPeriodIs(db, org, period, now);
  }

  lemma {:induction false} PeriodStarts(period: string, now: int)
    ensures var days := if period == "7d" then 7 else if period == "90d" then 90 else 30;
      now - PeriodDays(period) * DAY == now - days * (86400 * 1000)
  {
    assert |"7d"| == 2 && |"30d"| == 3 && "90d"[0] == '9' && "30d"[0] == '3';
  }

  lemma {:induction false} InPeriodIs(db: Tables, org: Id, period: string, now: int)
    ensures InPeriod(db, org, period, now)
         == Since(Joined(db.requests, db.results, org), now - PeriodDays(period) * DAY)
  {
    hide Joined, Since, PeriodDays;
  }

  lemma {:induction false} SinceCounts(recs: seq<Rec>, since: int, r: Rec)
    ensures multiset(Since(recs, since))[r] == if r.createdAt >= since then multiset(recs)[r] else 0
  {
    if recs == [] {
    } else {
      var before, last := recs[..|recs| - 1], recs[|recs| - 1];
      assert recs == before + [last];
      SinceCounts(before, since, r);
    }
  }

  /** A day has 86400 seconds, counted from the epoch. */
  lemma {:induction false} DayIs(r: Rec, day: int)
    ensures DayOf(r) == day <==> day * (86400 * 1000) <= r.createdAt < (day + 1) * (86400 * 1000)
  {
  }

  function Since(recs: seq<Rec>, since: int): seq<Rec> {
    if recs == [] then []
    else Since(recs[..|recs| - 1], since) + (if recs[|recs| - 1].createdAt >= since then [recs[|recs| - 1]] else [])
  }

  // ---- Statistics ----

  function Decisions(recs: seq<Rec>): (d: seq<string>)
    ensures |d| == |recs| && forall i :: 0 <= i < |recs| ==> d[i] == recs[i].decision
  {
    seq(|recs|, i requires 0 <= i < |recs| => recs[i].decision)
  }

  datatype DecisionCount = DecisionCount(decision: string, count: nat)

  function KeysOf(rows: seq<DecisionCount>): (k: seq<string>)
    ensures |k| == |rows| && forall i :: 0 <= i < |rows| ==> k[i] == rows[i].decision
  {
    seq(|rows|, i requires 0 <= i < |rows| => rows[i].decision)
  }

  /** What `GROUP BY decision` with a count may return. */
  ghost predicate IsDecisionCounts(rows: seq<DecisionCount>, recs: seq<Rec>) {
    && Distinct(KeysOf(rows)) && Covers(KeysOf(rows), Decisions(recs))
    && forall i :: 0 <= i < |rows| ==> rows[i].count == Occurrences(Decisions(recs), rows[i].decision) > 0
  }

  /** `n` times `x`. */
  function Times(x: real, n: nat): real {
    if n == 0 then 0.0 else Times(x, n - 1) + x
  }

  lemma {:induction false} TimesIsProduct(x: real, n: nat)
    ensures Times(x, n) == x * n as real
  {
    if n == 0 {
    } else {
      TimesIsProduct(x, n - 1);
      assert x * n as real == x * ((n - 1) as real + 1.0);
    }
  }

  function TotalScore(recs: seq<Rec>): int {
    if recs == [] then 0 else TotalScore(recs[..|recs| - 1]) + recs[|recs| - 1].score
  }

  /** What the query for the average score returns: nothing without results, otherwise the exact mean. */
  ghost predicate IsMean(avg: Option<real>, recs: seq<Rec>) {
    if recs == [] then avg == None else avg.Some? && Times(avg.value, |recs|) == TotalScore(recs) as real
  }

  datatype Stats = Stats(total: nat, approved: nat, review: nat, rejected: nat, approvalRate: real, avgRiskScore: real)

  /** `decision_counts.get(decision, 0)` */
  function Lookup(rows: seq<DecisionCount>, decision: string): nat {
    var i := Find(rows, (r: DecisionCount) => r.decision == decision);
    if i >= 0 then rows[i].count else 0
  }

  function SumCounts(rows: seq<DecisionCount>): nat {
    if rows == [] then 0 else SumCounts(rows[..|rows| - 1]) + rows[|rows| - 1].count
  }

  /** `get_stats`, before rounding. */
  function GetStats(rows: seq<DecisionCount>, avg: Option<real>): Stats {
    var total, approved := SumCounts(rows), Lookup(rows, "APPROVED");
    Stats(total, approved, Lookup(rows, "REVIEW"), Lookup(rows, "REJECT"),
          if total > 0 then approved as real / total as real * 100.0 else 0.0,
          if avg.Some? then avg.value else 0.0)
  }

  lemma {:induction false} SumCountsIsSumIf(rows: seq<DecisionCount>, items: seq<string>)
    requires forall i :: 0 <= i < |rows| ==> rows[i].count == Occurrences(items, rows[i].decision)
    ensures SumCounts(rows) == SumIf(KeysOf(rows), items, Any())
  {
    if rows == [] {
    } else {
      SumCountsIsSumIf(rows[..|rows| - 1], items);
      assert KeysOf(rows)[..|rows| - 1] == KeysOf(rows[..|rows| - 1]);
      assert SumIf(KeysOf(rows), items, Any())
          == SumIf(KeysOf(rows)[..|rows| - 1], items, Any()) + Occurrences(items, rows[|rows| - 1].decision);
    }
  }

  lemma {:induction false} LookupIsOccurrences(rows: seq<DecisionCount>, recs: seq<Rec>, decision: string)
    requires IsDecisionCounts(rows, recs)
    ensures Lookup(rows, decision) == Occurrences(Decisions(recs), decision)
  {
    var i := Find(rows, (r: DecisionCount) => r.decision == decision);
    OccurrencesIsCount(Decisions(recs), decision);
    assert decision in KeysOf(rows) ==> i >= 0;
    assert decision in Decisions(recs) ==> decision in KeysOf(rows);
  }

  ghost predicate ThreeDecisions(recs: seq<Rec>) {
    forall i :: 0 <= i < |recs| ==>
      recs[i].decision == "APPROVED" || recs[i].decision == "REVIEW" || recs[i].decision == "REJECT"
  }

  lemma {:induction false} DecisionNamesDiffer()
    ensures "APPROVED" != "REVIEW" && "REVIEW" != "REJECT" && "APPROVED" != "REJECT"
  {
    assert |"APPROVED"| == 8 && "REVIEW"[2] == 'V' && "REJECT"[2] == 'J';
  }

  lemma {:induction false} ThreeWaySplit(items: seq<string>)
    requires forall i :: 0 <= i < |items| ==> items[i] == "APPROVED" || items[i] == "REVIEW" || items[i] == "REJECT"
    ensures Occurrences(items, "APPROVED") + Occurrences(items, "REVIEW") + Occurrences(items, "REJECT") == |items|
  {
    DecisionNamesDiffer();
    if items == [] {
    } else {
      ThreeWaySplit(items[..|items| - 1]);
    }
  }

  /** Whatever order the groups come in, the statistics agree with counting the results directly. */
  lemma {:induction false} StatsAgreeWithCounting(rows: seq<DecisionCount>, avg: Option<real>, recs: seq<Rec>)
    requires IsDecisionCounts(rows, recs) && IsMean(avg, recs)
    ensures var s := GetStats(rows, avg); var d := Decisions(recs);
      && s.total == |recs|
      && s.approved == Occurrences(d, "APPROVED") && s.review == Occurrences(d, "REVIEW")
      && s.rejected == Occurrences(d, "REJECT")
      && (ThreeDecisions(recs) ==> s.approved + s.review + s.rejected == s.total)
      && 0.0 <= s.approvalRate <= 100.0
      && Times(s.approvalRate, s.total) == 100.0 * s.approved as real
      && Times(s.avgRiskScore, s.total) == TotalScore(recs) as real
  {
    var d := Decisions(recs);
    CountsAre(rows, avg, recs);
    hide IsDecisionCounts, Occurrences, Decisions;
    if ThreeDecisions(recs) { DecisionsSplit(recs); }
    var s := GetStats(rows, avg);
    RateInRange(s.approved, s.total);
    RateTimesTotal(s.approved, s.total);
    RateIs(rows, avg);
    AverageIs(rows, avg, recs);
    hide *;
  }

  lemma {:induction false} RateIs(rows: seq<DecisionCount>, avg: Option<real>)
    ensures var s := GetStats(rows, avg);
      s.approvalRate == if s.total > 0 then s.approved as real / s.total as real * 100.0 else 0.0
  {
    hide SumCounts, Lookup;
  }

  lemma {:induction false} AverageIs(rows: seq<DecisionCount>, avg: Option<real>, recs: seq<Rec>)
    requires IsMean(avg, recs) && GetStats(rows, avg).total == |recs|
    ensures var s := GetStats(rows, avg); Times(s.avgRiskScore, s.total) == TotalScore(recs) as real
  {
    hide SumCounts, Lookup;
  }

  lemma {:induction false} DecisionsSplit(recs: seq<Rec>)
    requires ThreeDecisions(recs)
    ensures var d := Decisions(recs);
      Occurrences(d, "APPROVED") + Occurrences(d, "REVIEW") + Occurrences(d, "REJECT") == |recs|
  {
    hide Occurrences;
    ThreeWaySplit(Decisions(recs));
  }

  lemma {:induction false} CountsAre(rows: seq<DecisionCount>, avg: Option<real>, recs: seq<Rec>)
    requires IsDecisionCounts(rows, recs)
    ensures var s := GetStats(rows, avg); var d := Decisions(recs);
      && s.total == |recs| && s.approved <= s.total
      && s.approved == Occurrences(d, "APPROVED") && s.review == Occurrences(d, "REVIEW")
      && s.rejected == Occurrences(d, "REJECT")
  {
    var d := Decisions(recs);
    SumCountsIsSumIf(rows, d);
    GroupsAddUp(KeysOf(rows), d);
    LookupIsOccurrences(rows, recs, "APPROVED");
    LookupIsOccurrences(rows, recs, "REVIEW");
    LookupIsOccurrences(rows, recs, "REJECT");
    hide Lookup, SumCounts, Occurrences;
  }

  lemma {:induction false} RateTimesTotal(part: nat, total: nat)
    ensures total > 0 ==> Times(part as real / total as real * 100.0, total) == 100.0 * part as real
    ensures Times(0.0, 0) == 0.0
  {
    if total > 0 {
      var q, t := part as real / total as real, total as real;
      TimesIsProduct(q * 100.0, total);
      assert q * t == part as real;
      assert q * 100.0 * t == q * t * 100.0;
    }
  }

  lemma {:induction false} RateInRange(part: nat, total: nat)
    requires part <= total
    ensures total > 0 ==> 0.0 <= part as real / total as real * 100.0 <= 100.0
  {
    if total > 0 {
      var q := part as real / total as real;
      assert q * total as real == part as real;
      assert 0.0 <= q <= 1.0;
    }
  }

  // ---- Analytics ----

  function DayOf(r: Rec): int { r.createdAt / DAY }

  datatype GroupRow = GroupRow(day: int, decision: string, count: nat, avgScore: real)

  type Key = (int, string)

  function ItemKeys(recs: seq<Rec>): (k: seq<Key>)
    ensures |k| == |recs| && forall i :: 0 <= i < |recs| ==> k[i] == (DayOf(recs[i]), recs[i].decision)
  {
    seq(|recs|, i requires 0 <= i < |recs| => (DayOf(recs[i]), recs[i].decision))
  }

  function RowKeys(rows: seq<GroupRow>): (k: seq<Key>)
    ensures |k| == |rows| && forall i :: 0 <= i < |rows| ==> k[i] == (rows[i].day, rows[i].decision)
  {
    seq(|rows|, i requires 0 <= i < |rows| => (rows[i].day, rows[i].decision))
  }

  function ScoreSum(recs: seq<Rec>, key: Key): int {
    if recs == [] then 0
    else
      var last := recs[|recs| - 1];
      ScoreSum(recs[..|recs| - 1], key) + (if (DayOf(last), last.decision) == key then last.score else 0)
  }

  /** What the grouped query may return: one row per day and decision, with its count and exact average, by day. */
  ghost predicate IsGroupQuery(rows: seq<GroupRow>, recs: seq<Rec>) {
    && Distinct(RowKeys(rows)) && Covers(RowKeys(rows), ItemKeys(recs))
    && (forall i :: 0 <= i < |rows| ==> GroupRowFits(rows[i], recs))
    && (forall i, j :: 0 <= i < j < |rows| ==> rows[i].day <= rows[j].day)
  }

  ghost predicate GroupRowFits(row: GroupRow, recs: seq<Rec>) {
    && row.count == Occurrences(ItemKeys(recs), (row.day, row.decision)) > 0
    && Times(row.avgScore, row.count) == ScoreSum(recs, (row.day, row.decision)) as real
  }

  /** The accumulator kept for one date. */
  datatype Entry = Entry(total: nat, approved: nat, review: nat, rejected: nat, scores: seq<real>)

  function AddRow(e: Entry, row: GroupRow): Entry {
    Entry(e.total + row.count,
          e.approved + (if row.decision == "APPROVED" then row.count else 0),
          e.review + (if row.decision == "REVIEW" then row.count else 0),
          e.rejected + (if row.decision == "REJECT" then row.count else 0),
          e.scores + [row.avgScore])
  }

  function EntryOf(rows: seq<GroupRow>, day: int): Entry {
    if rows == [] then Entry(0, 0, 0, 0, [])
    else
      var before := EntryOf(rows[..|rows| - 1], day);
      if rows[|rows| - 1].day == day then AddRow(before, rows[|rows| - 1]) else before
  }

  function Sum(scores: seq<real>): real {
    if scores == [] then 0.0 else Sum(scores[..|scores| - 1]) + scores[|scores| - 1]
  }

  datatype Point = Point(day: int, total: nat, approved: nat, review: nat, rejected: nat, avgRiskScore: real)

  function PointOf(day: int, e: Entry): Point {
    Point(day, e.total, e.approved, e.review, e.rejected,
          if |e.scores| > 0 then Sum(e.scores) / |e.scores| as real else 0.0)
  }

  function InsertDay(days: seq<int>, d: int): (r: seq<int>)
    requires forall i, j :: 0 <= i < j < |days| ==> days[i] < days[j]
    requires d !in days
    ensures forall i, j :: 0 <= i < j < |r| ==> r[i] < r[j]
    ensures forall x :: x in r <==> x == d || x in days
  {
    if days == [] || days[|days| - 1] < d then days + [d]
    else
      var before, last := days[..|days| - 1], days[|days| - 1];
      assert days == before + [last];
      var inserted := InsertDay(before, d);
      assert forall i :: 0 <= i < |inserted| ==> inserted[i] in inserted;
      inserted + [last]
  }

  /** `sorted` on distinct days. */
  function SortedDays(days: seq<int>): (r: seq<int>)
    requires Distinct(days)
    ensures forall i, j :: 0 <= i < j < |r| ==> r[i] < r[j]
    ensures forall x :: x in r <==> x in days
  {
    if days == [] then []
    else
      var before, last := days[..|days| - 1], days[|days| - 1];
      assert days == before + [last];
      InsertDay(SortedDays(before), last)
  }

  ghost predicate Tracks(dateMap: map<int, Entry>, keys: seq<int>, rows: seq<GroupRow>) {
    && Distinct(keys) && (forall d :: d in dateMap <==> d in keys)
    && (forall d :: d in dateMap ==> dateMap[d] == EntryOf(rows, d))
    && (forall d :: d in dateMap <==> HasRow(rows, d))
  }

  ghost predicate HasRow(rows: seq<GroupRow>, day: int) {
    exists i :: 0 <= i < |rows| && rows[i].day == day
  }

  ghost predicate HasPoint(data: seq<Point>, day: int) {
    exists i :: 0 <= i < |data| && data[i].day == day
  }

  lemma {:induction false} NoRowNoEntry(rows: seq<GroupRow>, day: int)
    requires forall i :: 0 <= i < |rows| ==> rows[i].day != day
    ensures EntryOf(rows, day) == Entry(0, 0, 0, 0, [])
  {
    if rows == [] {
    } else {
      NoRowNoEntry(rows[..|rows| - 1], day);
    }
  }

  /** The results the analytics of a period look at. */
  function InPeriod(db: Tables, org: Id, period: string, now: int): seq<Rec> {
    Since(Joined(db.requests, db.results, org), now - PeriodDays(period) * DAY)
  }

  datatype AnalyticsResponse = AnalyticsResponse(period: string, data: seq<Point>, summary: Stats)

  class DashboardService {
    const db: Session

    constructor (db: Session)
      ensures this.db == db
    {
      this.db := db;
    }

    /** The time series of a period and the statistics, from any answers of their queries. */
    method GetAnalytics(org: Id, period: string, now: int, rows: seq<GroupRow>,
                        counts: seq<DecisionCount>, avg: Option<real>) returns (response: AnalyticsResponse)
      requires IsGroupQuery(rows, InPeriod(db.tables, org, period, now))
      requires var all := Joined(db.tables.requests, db.tables.results, org);
        IsDecisionCounts(counts, all) && IsMean(avg, all)
      ensures response.period == period && response.summary == GetStats(counts, avg)
      ensures SeriesOf(response.data, InPeriod(db.tables, org, period, now))
    {
      var data := Aggregate(rows);
      SeriesAgreesWithCounting(rows, InPeriod(db.tables, org, period, now), data);
      return AnalyticsResponse(period, data, GetStats(counts, avg));
    }

    /** The update of one date's accumulator. */
    method AddToEntry(entry: Entry, row: GroupRow) returns (e: Entry)
      ensures e == AddRow(entry, row)
    {
      e := entry.(total := entry.total + row.count);
      e := e.(scores := e.scores + [row.avgScore]);
      DecisionNamesDiffer();
      if row.decision == "APPROVED" {
        e := e.(approved := e.approved + row.count);
      } else if row.decision == "REVIEW" {
        e := e.(review := e.review + row.count);
      } else if row.decision == "REJECT" {
        e := e.(rejected := e.rejected + row.count);
      }
    }

    /** The loop over the grouped rows; `keys` lists the dates in the order they entered the dictionary. */
    method CollectByDate(rows: seq<GroupRow>) returns (dateMap: map<int, Entry>, keys: seq<int>)
      ensures Tracks(dateMap, keys, rows)
    {
      dateMap, keys := map[], [];
      for i := 0 to |rows|
        invariant Tracks(dateMap, keys, rows[..i])
      {
        var row := rows[i];
        ghost var before, keysBefore := dateMap, keys;
        if row.day !in dateMap {
          NoRowNoEntry(rows[..i], row.day);
          dateMap := dateMap[row.day := Entry(0, 0, 0, 0, [])];
          keys := keys + [row.day];
        }
        assert dateMap[row.day] == EntryOf(rows[..i], row.day);
        hide Tracks, EntryOf, AddRow;
        var e := AddToEntry(dateMap[row.day], row);
        dateMap := dateMap[row.day := e];
        TracksOneMore(before, keysBefore, e, rows[..i], row);
        assert rows[..i] + [row] == rows[..i + 1];
      }
      assert rows[..|rows|] == rows;
    }

    /** The time series: one point per date, in date order. */
    method Aggregate(rows: seq<GroupRow>) returns (data: seq<Point>)
      ensures forall i, j :: 0 <= i < j < |data| ==> data[i].day < data[j].day
      ensures forall d :: HasPoint(data, d) <==> HasRow(rows, d)
      ensures forall i :: 0 <= i < |data| ==> data[i] == PointOf(data[i].day, EntryOf(rows, data[i].day))
    {
      var dateMap, keys := CollectByDate(rows);
      var days := SortedDays(keys);
      data := [];
      hide EntryOf, SortedDays, Distinct, PointOf;
      for k := 0 to |days|
        invariant |data| == k
        invariant forall i :: 0 <= i < k ==> data[i] == PointOf(days[i], EntryOf(rows, days[i]))
      {
        var d := days[k];
        assert d in days;
        data := data + [PointOf(d, dateMap[d])];
      }
      PointsCarryDays(rows, days, data);
      forall d ensures HasPoint(data, d) <==> HasRow(rows, d) {
        assert HasRow(rows, d) <==> d in days;
        if d in days {
          var i :| 0 <= i < |days| && days[i] == d;
          assert data[i].day == d;
        }
      }
    }
  }

  lemma {:induction false} PointsCarryDays(rows: seq<GroupRow>, days: seq<int>, data: seq<Point>)
    requires |data| == |days| && forall i :: 0 <= i < |data| ==> data[i] == PointOf(days[i], EntryOf(rows, days[i]))
    ensures forall i :: 0 <= i < |data| ==> data[i].day == days[i]
  {
  }

  lemma {:induction false} TracksOneMore(before: map<int, Entry>, keys: seq<int>, e: Entry, rows: seq<GroupRow>,
                                         row: GroupRow)
    requires Tracks(before, keys, rows)
    requires e == AddRow(EntryOf(rows, row.day), row)
    ensures Tracks(before[row.day := e], if row.day in before then keys else keys + [row.day], rows + [row])
  {
    var rows', after := rows + [row], before[row.day := e];
    assert rows'[..|rows|] == rows;
    forall d ensures d in after <==> HasRow(rows', d) {
      if d in before {
        var i :| 0 <= i < |rows| && rows[i].day == d;
        assert rows'[i].day == d;
      }
      assert rows'[|rows|].day == row.day;
      if i :| 0 <= i < |rows'| && rows'[i].day == d {
        if i < |rows| { assert rows[i].day == d; }
      }
    }
  }

  // ---- The series against direct counting ----

  function OnDay(day: int): Key -> bool { (k: Key) => k.0 == day }

  lemma {:induction false} EntryIsSumIf(rows: seq<GroupRow>, items: seq<Key>, day: int)
    requires forall i :: 0 <= i < |rows| ==> rows[i].count == Occurrences(items, (rows[i].day, rows[i].decision))
    ensures var e, keys := EntryOf(rows, day), RowKeys(rows);
      && e.total == SumIf(keys, items, OnDay(day))
      && e.approved == SumIf(keys, items, Is((day, "APPROVED")))
      && e.review == SumIf(keys, items, Is((day, "REVIEW")))
      && e.rejected == SumIf(keys, items, Is((day, "REJECT")))
  {
    if rows == [] {
    } else {
      EntryIsSumIf(rows[..|rows| - 1], items, day);
      assert RowKeys(rows)[..|rows| - 1] == RowKeys(rows[..|rows| - 1]);
    }
  }

  /** How many results fall on a day, in all or with one decision. */
  function OnDayCount(recs: seq<Rec>, day: int): nat { CountIf(ItemKeys(recs), OnDay(day)) }

  function DecidedOnDay(recs: seq<Rec>, day: int, decision: string): nat { Occurrences(ItemKeys(recs), (day,
                        decision)) }

  lemma {:induction false} EntryCounts(rows: seq<GroupRow>, recs: seq<Rec>, day: int)
    requires IsGroupQuery(rows, recs)
    ensures var e := EntryOf(rows, day);
      && e.total == OnDayCount(recs, day)
      && e.approved == DecidedOnDay(recs, day, "APPROVED")
      && e.review == DecidedOnDay(recs, day, "REVIEW")
      && e.rejected == DecidedOnDay(recs, day, "REJECT")
  {
    var keys, items := RowKeys(rows), ItemKeys(recs);
    assert forall i :: 0 <= i < |rows| ==> GroupRowFits(rows[i], recs);
    hide EntryOf, IsGroupQuery;
    assert Distinct(keys) && Covers(keys, items) by { QueryKeys(rows, recs); }
    EntryIsSumIf(rows, items, day);
    hide GroupRowFits, Distinct, Covers;
    GroupsPartition(keys, items, OnDay(day));
    GroupsAddUp(keys, items);
  }

  lemma {:induction false} QueryKeys(rows: seq<GroupRow>, recs: seq<Rec>)
    requires IsGroupQuery(rows, recs)
    ensures Distinct(RowKeys(rows)) && Covers(RowKeys(rows), ItemKeys(recs))
  {
  }

  lemma {:induction false} DaySplit(items: seq<Key>, day: int)
    requires forall i :: 0 <= i < |items| ==>
      items[i].1 == "APPROVED" || items[i].1 == "REVIEW" || items[i].1 == "REJECT"
    ensures CountIf(items, OnDay(day))
         == Occurrences(items, (day, "APPROVED")) + Occurrences(items, (day, "REVIEW"))
          + Occurrences(items, (day, "REJECT"))
  {
    DecisionNamesDiffer();
    if items == [] {
    } else {
      DaySplit(items[..|items| - 1], day);
    }
  }

  // ---- Averages ----

  ghost predicate ScoresWithin(recs: seq<Rec>, day: int, low: real, high: real) {
    forall i :: 0 <= i < |recs| && DayOf(recs[i]) == day ==> low <= recs[i].score as real <= high
  }

  lemma {:induction false} CancelFactor(x: real, y: real, n: real, xs: real, ys: real)
    requires n > 0.0 && x * n == xs && y * n == ys && xs <= ys
    ensures x <= y
  {
    assert x * n / n == x && y * n / n == y;
  }

  /** A mean lies within the bounds of its terms. */
  lemma {:induction false} MeanWithin(mean: real, n: nat, sum: real, low: real, high: real)
    requires n > 0 && Times(mean, n) == sum && Times(low, n) <= sum <= Times(high, n)
    ensures low <= mean <= high
  {
    TimesIsProduct(low, n);
    TimesIsProduct(mean, n);
    TimesIsProduct(high, n);
    hide *;
    CancelFactor(low, mean, n as real, Times(low, n), sum);
    CancelFactor(mean, high, n as real, sum, Times(high, n));
  }

  lemma {:induction false} GroupSumWithin(recs: seq<Rec>, key: Key, low: real, high: real)
    requires ScoresWithin(recs, key.0, low, high)
    ensures var n := Occurrences(ItemKeys(recs), key);
      Times(low, n) <= ScoreSum(recs, key) as real <= Times(high, n)
  {
    if recs == [] {
    } else {
      var before, last := recs[..|recs| - 1], recs[|recs| - 1];
      GroupSumWithin(before, key, low, high);
      assert ItemKeys(recs)[..|recs| - 1] == ItemKeys(before);
    }
  }

  lemma {:induction false} RowIsMean(row: GroupRow, recs: seq<Rec>)
    requires GroupRowFits(row, recs)
    ensures row.count > 0 && row.count == Occurrences(ItemKeys(recs), (row.day, row.decision))
    ensures Times(row.avgScore, row.count) == ScoreSum(recs, (row.day, row.decision)) as real
  {
  }

  lemma {:induction false} RowAverageWithin(row: GroupRow, recs: seq<Rec>, low: real, high: real)
    requires GroupRowFits(row, recs) && ScoresWithin(recs, row.day, low, high)
    ensures low <= row.avgScore <= high
  {
    hide *;
    RowIsMean(row, recs);
    GroupSumWithin(recs, (row.day, row.decision), low, high);
    MeanWithin(row.avgScore, row.count, ScoreSum(recs, (row.day, row.decision)) as real, low, high);
  }

  lemma {:induction false} EntryScoresWithin(rows: seq<GroupRow>, recs: seq<Rec>, day: int, low: real, high: real)
    requires forall i :: 0 <= i < |rows| ==> GroupRowFits(rows[i], recs)
    requires ScoresWithin(recs, day, low, high)
    ensures var s := EntryOf(rows, day).scores;
      && Times(low, |s|) <= Sum(s) <= Times(high, |s|)
      && (HasRow(rows, day) ==> s != [])
  {
    hide GroupRowFits;
    if rows == [] {
    } else {
      var before, last := rows[..|rows| - 1], rows[|rows| - 1];
      EntryScoresWithin(before, recs, day, low, high);
      var s := EntryOf(before, day).scores;
      if last.day == day {
        RowAverageWithin(last, recs, low, high);
        assert (s + [last.avgScore])[..|s|] == s;
      } else if HasRow(rows, day) {
        var i :| 0 <= i < |rows| && rows[i].day == day;
        assert before[i].day == day;
      }
    }
  }

  lemma {:induction false} QuotientIs(sum: real, n: nat)
    requires n > 0
    ensures Times(sum / n as real, n) == sum
  {
    TimesIsProduct(sum / n as real, n);
  }

  lemma {:induction false} QuotientWithin(sum: real, n: nat, low: real, high: real)
    requires n > 0 && Times(low, n) <= sum <= Times(high, n)
    ensures low <= sum / n as real <= high
  {
    hide Times;
    QuotientIs(sum, n);
    MeanWithin(sum / n as real, n, sum, low, high);
  }

  ghost predicate AllWithin(recs: seq<Rec>, low: real, high: real) {
    forall i :: 0 <= i < |recs| ==> low <= recs[i].score as real <= high
  }

  lemma {:induction false} TotalWithin(recs: seq<Rec>, low: real, high: real)
    requires AllWithin(recs, low, high)
    ensures Times(low, |recs|) <= TotalScore(recs) as real <= Times(high, |recs|)
  {
    if recs == [] {
    } else {
      TotalWithin(recs[..|recs| - 1], low, high);
    }
  }

  /** The average of the statistics lies within any bounds on the scores. */
  lemma {:induction false} StatsAverageWithin(rows: seq<DecisionCount>, avg: Option<real>, recs: seq<Rec>, low: real,
                                              high: real)
    requires IsMean(avg, recs) && recs != [] && AllWithin(recs, low, high)
    ensures low <= GetStats(rows, avg).avgRiskScore <= high
  {
    assert avg.Some? && Times(avg.value, |recs|) == TotalScore(recs) as real;
    assert GetStats(rows, avg).avgRiskScore == avg.value;
    hide *;
    TotalWithin(recs, low, high);
    MeanWithin(avg.value, |recs|, TotalScore(recs) as real, low, high);
  }

  /** A day's average lies within any bounds on that day's scores. */
  lemma {:induction false} AverageWithin(rows: seq<GroupRow>, recs: seq<Rec>, day: int, low: real, high: real)
    requires IsGroupQuery(rows, recs) && HasRow(rows, day) && ScoresWithin(recs, day, low, high)
    ensures low <= PointOf(day, EntryOf(rows, day)).avgRiskScore <= high
  {
    EntryScoresWithin(rows, recs, day, low, high);
    hide EntryOf, Sum, Times, IsGroupQuery, ScoresWithin, HasRow;
    var s := EntryOf(rows, day).scores;
    QuotientWithin(Sum(s), |s|, low, high);
  }

  // ---- The whole series ----

  function TotalOf(data: seq<Point>): nat {
    if data == [] then 0 else TotalOf(data[..|data| - 1]) + data[|data| - 1].total
  }

  function Days(data: seq<Point>): (d: seq<int>)
    ensures |d| == |data| && forall i :: 0 <= i < |data| ==> d[i] == data[i].day
  {
    seq(|data|, i requires 0 <= i < |data| => data[i].day)
  }

  function ItemDays(recs: seq<Rec>): (d: seq<int>)
    ensures |d| == |recs| && forall i :: 0 <= i < |recs| ==> d[i] == DayOf(recs[i])
  {
    seq(|recs|, i requires 0 <= i < |recs| => DayOf(recs[i]))
  }

  lemma {:induction false} DayOccurrences(recs: seq<Rec>, day: int)
    ensures Occurrences(ItemDays(recs), day) == OnDayCount(recs, day)
  {
    if recs == [] {
    } else {
      DayOccurrences(recs[..|recs| - 1], day);
      assert ItemDays(recs)[..|recs| - 1] == ItemDays(recs[..|recs| - 1]);
      assert ItemKeys(recs)[..|recs| - 1] == ItemKeys(recs[..|recs| - 1]);
    }
  }

  lemma {:induction false} TotalIsSumIf(data: seq<Point>, recs: seq<Rec>)
    requires forall i :: 0 <= i < |data| ==> data[i].total == OnDayCount(recs, data[i].day)
    ensures TotalOf(data) == SumIf(Days(data), ItemDays(recs), Any())
  {
    if data == [] {
    } else {
      TotalIsSumIf(data[..|data| - 1], recs);
      assert Days(data)[..|data| - 1] == Days(data[..|data| - 1]);
      DayOccurrences(recs, data[|data| - 1].day);
    }
  }

  ghost predicate FitsDay(p: Point, recs: seq<Rec>) {
    && p.total == OnDayCount(recs, p.day) > 0
    && p.approved == DecidedOnDay(recs, p.day, "APPROVED")
    && p.review == DecidedOnDay(recs, p.day, "REVIEW")
    && p.rejected == DecidedOnDay(recs, p.day, "REJECT")
    && (ThreeDecisions(recs) ==> p.total == p.approved + p.review + p.rejected)
    && forall low, high :: ScoresWithin(recs, p.day, low, high) ==> low <= p.avgRiskScore <= high
  }

  lemma {:induction false} PointFits(rows: seq<GroupRow>, recs: seq<Rec>, day: int)
    requires IsGroupQuery(rows, recs) && HasRow(rows, day)
    ensures FitsDay(PointOf(day, EntryOf(rows, day)), recs)
  {
    EntryCounts(rows, recs, day);
    var p := PointOf(day, EntryOf(rows, day));
    forall low, high | ScoresWithin(recs, day, low, high) ensures low <= p.avgRiskScore <= high {
      AverageWithin(rows, recs, day, low, high);
    }
    if ThreeDecisions(recs) {
      DaySplit(ItemKeys(recs), day);
    }
    var i :| 0 <= i < |rows| && rows[i].day == day;
    assert GroupRowFits(rows[i], recs);
    OccurrencesIsCount(ItemKeys(recs), (rows[i].day, rows[i].decision));
    SomeOnDay(ItemKeys(recs), (rows[i].day, rows[i].decision));
  }

  lemma {:induction false} SomeOnDay(items: seq<Key>, key: Key)
    requires Occurrences(items, key) > 0
    ensures CountIf(items, OnDay(key.0)) > 0
  {
    if items[|items| - 1] != key { SomeOnDay(items[..|items| - 1], key); }
  }

  /**
   Dates strictly increase, every point fits its day, every date with results is there, and the
   totals sum to all results.
   */
  ghost predicate SeriesOf(data: seq<Point>, recs: seq<Rec>) {
    && (forall i, j :: 0 <= i < j < |data| ==> data[i].day < data[j].day)
    && (forall i :: 0 <= i < |data| ==> FitsDay(data[i], recs))
    && (forall k :: 0 <= k < |recs| ==> HasPoint(data, DayOf(recs[k])))
    && TotalOf(data) == |recs|
  }

  lemma {:induction false} EveryDateHasPoint(rows: seq<GroupRow>, recs: seq<Rec>, data: seq<Point>)
    requires IsGroupQuery(rows, recs) && forall d :: HasPoint(data, d) <==> HasRow(rows, d)
    ensures forall k :: 0 <= k < |recs| ==> HasPoint(data, DayOf(recs[k]))
  {
    hide GroupRowFits, HasPoint;
    forall k | 0 <= k < |recs| ensures HasPoint(data, DayOf(recs[k])) {
      assert ItemKeys(recs)[k] in RowKeys(rows);
      var i :| 0 <= i < |rows| && RowKeys(rows)[i] == ItemKeys(recs)[k];
      assert rows[i].day == DayOf(recs[k]);
      assert HasRow(rows, DayOf(recs[k]));
    }
  }

  lemma {:induction false} EveryPointFits(rows: seq<GroupRow>, recs: seq<Rec>, data: seq<Point>)
    requires IsGroupQuery(rows, recs) && forall d :: HasPoint(data, d) <==> HasRow(rows, d)
    requires forall i :: 0 <= i < |data| ==> data[i] == PointOf(data[i].day, EntryOf(rows, data[i].day))
    ensures forall i :: 0 <= i < |data| ==> FitsDay(data[i], recs)
  {
    hide IsGroupQuery, HasRow, FitsDay, PointOf, EntryOf;
    forall i | 0 <= i < |data| ensures FitsDay(data[i], recs) {
      assert HasPoint(data, data[i].day);
      PointFits(rows, recs, data[i].day);
    }
  }

  lemma {:induction false} PointsAddUp(recs: seq<Rec>, data: seq<Point>)
    requires forall i, j :: 0 <= i < j < |data| ==> data[i].day < data[j].day
    requires forall i :: 0 <= i < |data| ==> FitsDay(data[i], recs)
    requires forall k :: 0 <= k < |recs| ==> HasPoint(data, DayOf(recs[k]))
    ensures TotalOf(data) == |recs|
  {
    assert Distinct(Days(data));
    TotalsFit(data, recs);
    PointsCover(data, recs);
    hide *;
    TotalIsSumIf(data, recs);
    GroupsAddUp(Days(data), ItemDays(recs));
  }

  /** Whatever the grouped query answers, the series folded from it agrees with counting. */
  lemma {:induction false} SeriesAgreesWithCounting(rows: seq<GroupRow>, recs: seq<Rec>, data: seq<Point>)
    requires IsGroupQuery(rows, recs)
    requires forall i, j :: 0 <= i < j < |data| ==> data[i].day < data[j].day
    requires forall d :: HasPoint(data, d) <==> HasRow(rows, d)
    requires forall i :: 0 <= i < |data| ==> data[i] == PointOf(data[i].day, EntryOf(rows, data[i].day))
    ensures SeriesOf(data, recs)
  {
    hide IsGroupQuery, HasPoint, HasRow, FitsDay, PointOf, EntryOf;
    EveryPointFits(rows, recs, data);
    EveryDateHasPoint(rows, recs, data);
    PointsAddUp(recs, data);
  }

  lemma {:induction false} TotalsFit(data: seq<Point>, recs: seq<Rec>)
    requires forall i :: 0 <= i < |data| ==> FitsDay(data[i], recs)
    ensures forall i :: 0 <= i < |data| ==> data[i].total == OnDayCount(recs, data[i].day)
  {
  }

  lemma {:induction false} PointsCover(data: seq<Point>, recs: seq<Rec>)
    requires forall k :: 0 <= k < |recs| ==> HasPoint(data, DayOf(recs[k]))
    ensures Covers(Days(data), ItemDays(recs))
  {
    forall k | 0 <= k < |recs| ensures ItemDays(recs)[k] in Days(data) {
      assert HasPoint(data, DayOf(recs[k]));
      var i :| 0 <= i < |data| && data[i].day == DayOf(recs[k]);
      assert Days(data)[i] == ItemDays(recs)[k];
    }
  }
}
