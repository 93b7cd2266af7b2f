/** The average a day's point shows against the mean of the day's scores. */
module Averages {
  import opened Grouping
  import opened Dashboard
  import FraudEngine

  function DaySum(recs: seq<Rec>, day: int): int {
    if recs == [] then 0
    else DaySum(recs[..|recs| - 1], day) + (if DayOf(recs[|recs| - 1]) == day then recs[|recs| - 1].score else 0)
  }

  /** The mean of the day's scores. */
  function DayMean(recs: seq<Rec>, day: int): real
    requires OnDayCount(recs, day) > 0
  {
    DaySum(recs, day) as real / OnDayCount(recs, day) as real
  }

  /** The average the point of the day shows. */
  function ShownAverage(rows: seq<GroupRow>, day: int): real {
    PointOf(day, EntryOf(rows, day)).avgRiskScore
  }

  // ---- The score sums of the groups add up ----

  function GroupSums(keys: seq<Key>, recs: seq<Rec>, day: int): int {
    if keys == [] then 0
    else
      var last := keys[|keys| - 1];
      GroupSums(keys[..|keys| - 1], recs, day) + (if last.0 == day then ScoreSum(recs, last) else 0)
  }

  lemma {:induction false} NoScores(keys: seq<Key>, day: int)
    ensures GroupSums(keys, [], day) == 0
  {
    if keys == [] {
    } else {
      NoScores(keys[..|keys| - 1], day);
    }
  }

  lemma {:induction false} OneMoreScore(keys: seq<Key>, recs: seq<Rec>, day: int)
    requires recs != [] && Distinct(keys)
    ensures var last := recs[|recs| - 1]; var key := (DayOf(last), last.decision);
      GroupSums(keys, recs, day)
      == GroupSums(keys, recs[..|recs| - 1], day) + if key in keys && key.0 == day then last.score else 0
  {
    if keys == [] {
    } else {
      var before, k := keys[..|keys| - 1], keys[|keys| - 1];
      OneMoreScore(before, recs, day);
      assert keys == before + [k];
      assert k !in before;
    }
  }

  lemma {:induction false} GroupSumsAddUp(keys: seq<Key>, recs: seq<Rec>, day: int)
    requires Distinct(keys) && Covers(keys, ItemKeys(recs))
    ensures GroupSums(keys, recs, day) == DaySum(recs, day)
  {
    if recs == [] {
      NoScores(keys, day);
    } else {
      var before := recs[..|recs| - 1];
      assert ItemKeys(recs)[..|recs| - 1] == ItemKeys(before);
      assert ItemKeys(recs)[|recs| - 1] in keys;
      GroupSumsAddUp(keys, before, day);
      OneMoreScore(keys, recs, day);
    }
  }

  // ---- Groups of one size ----

  /** Every row of the day counts `c` results. */
  ghost predicate AllCount(rows: seq<GroupRow>, day: int, c: nat) {
    forall i :: 0 <= i < |rows| && rows[i].day == day ==> rows[i].count == c
  }

  lemma {:induction false} TimesAdds(x: real, y: real, c: nat)
    ensures Times(x + y, c) == Times(x, c) + Times(y, c)
  {
    if c == 0 {
    } else {
      TimesAdds(x, y, c - 1);
    }
  }

  lemma {:induction false} OneMoreTime(x: real, n: nat)
    ensures Times(x, n + 1) == Times(x, n) + x
  {
  }

  /** What the last row adds to its date's entry and to the group sums. */
  lemma {:induction false} LastRow(rows: seq<GroupRow>, recs: seq<Rec>, day: int)
    requires rows != []
    ensures var before, last := rows[..|rows| - 1], rows[|rows| - 1];
      var e, e' := EntryOf(before, day), EntryOf(rows, day);
      if last.day == day then
        && Sum(e'.scores) == Sum(e.scores) + last.avgScore
        && |e'.scores| == |e.scores| + 1 && e'.total == e.total + last.count
        && GroupSums(RowKeys(rows), recs, day)
           == GroupSums(RowKeys(before), recs, day) + ScoreSum(recs, (last.day, last.decision))
      else e' == e && GroupSums(RowKeys(rows), recs, day) == GroupSums(RowKeys(before), recs, day)
  {
    var before, last := rows[..|rows| - 1], rows[|rows| - 1];
    assert RowKeys(rows)[..|rows| - 1] == RowKeys(before);
    var s := EntryOf(before, day).scores;
    assert (s + [last.avgScore])[..|s|] == s;
  }

  lemma {:induction false} SameSizeSums(rows: seq<GroupRow>, recs: seq<Rec>, day: int, c: nat)
    requires AllCount(rows, day, c) && forall i :: 0 <= i < |rows| ==> GroupRowFits(rows[i], recs)
    ensures var e := EntryOf(rows, day);
      && Times(Sum(e.scores), c) == GroupSums(RowKeys(rows), recs, day) as real
      && Times(c as real, |e.scores|) == e.total as real
  {
    if rows == [] {
      assert EntryOf(rows, day).scores == [];
      ZeroTimes(c);
    } else {
      var before, last := rows[..|rows| - 1], rows[|rows| - 1];
      assert last.day == day ==> last.count == c;
      assert AllCount(before, day, c);
      hide *;
      SameSizeSums(before, recs, day, c);
      LastRow(rows, recs, day);
      if last.day == day {
        RowIsMean(last, recs);
        TimesAdds(Sum(EntryOf(before, day).scores), last.avgScore, c);
        OneMoreTime(c as real, |EntryOf(before, day).scores|);
      }
    }
  }

  lemma {:induction false} ShownIs(rows: seq<GroupRow>, day: int)
    ensures var s := EntryOf(rows, day).scores; |s| > 0 ==> Times(ShownAverage(rows, day), |s|) == Sum(s)
  {
    hide EntryOf, Sum, Times;
    var s := EntryOf(rows, day).scores;
    if |s| > 0 {
      QuotientIs(Sum(s), |s|);
    }
  }

  lemma {:induction false} MeanIs(recs: seq<Rec>, day: int)
    requires OnDayCount(recs, day) > 0
    ensures Times(DayMean(recs, day), OnDayCount(recs, day)) == DaySum(recs, day) as real
  {
    hide OnDayCount, DaySum, Times;
    QuotientIs(DaySum(recs, day) as real, OnDayCount(recs, day));
  }

  /** Times read as products, for the two arguments that divide. */
  lemma {:induction false} SameMean(x: real, y: real, s: real, d: real, c: nat, k: nat, n: nat)
    requires Times(x, k) == s && Times(s, c) == d && Times(c as real, k) == n as real && Times(y, n) == d && n > 0
    ensures x == y
  {
    TimesIsProduct(x, k);
    TimesIsProduct(s, c);
    TimesIsProduct(c as real, k);
    TimesIsProduct(y, n);
    hide Times;
    var cr, kr, nr := c as real, k as real, n as real;
    assert x * nr == y * nr by {
      assert x * kr * cr == x * (cr * kr);
    }
    assert x * nr / nr == x && y * nr / nr == y;
  }

  lemma {:induction false} RowsFit(rows: seq<GroupRow>, recs: seq<Rec>)
    requires IsGroupQuery(rows, recs)
    ensures forall i :: 0 <= i < |rows| ==> GroupRowFits(rows[i], recs)
  {
    hide GroupRowFits;
  }

  /** With groups of one size the point shows the mean. */
  lemma {:induction false} SameSizeIsMean(rows: seq<GroupRow>, recs: seq<Rec>, day: int, c: nat)
    requires IsGroupQuery(rows, recs) && AllCount(rows, day, c) && OnDayCount(recs, day) > 0
    ensures ShownAverage(rows, day) == DayMean(recs, day)
  {
    hide *;
    RowsFit(rows, recs);
    QueryKeys(rows, recs);
    EntryCounts(rows, recs, day);
    SameSizeSums(rows, recs, day, c);
    GroupSumsAddUp(RowKeys(rows), recs, day);
    var s := EntryOf(rows, day).scores;
    if |s| == 0 {
      NoTimes(c as real);
    } else {
      ShownIs(rows, day);
      MeanIs(recs, day);
      SameMean(ShownAverage(rows, day), DayMean(recs, day), Sum(s), DaySum(recs, day) as real,
               c, |s|, OnDayCount(recs, day));
    }
  }

  lemma {:induction false} NoTimes(x: real)
    ensures Times(x, 0) == 0.0
  {
  }

  // ---- Scoring one result one point higher or lower ----

  /** The record's decision is the one its score calls for. */
  predicate InBand(r: Rec) {
    0 <= r.score <= 100 && FraudEngine.MakeDecision(r.score) == r.decision
  }

  /** The same results scored differently, each within the band of its decision. */
  ghost predicate Rescored(recs: seq<Rec>, recs': seq<Rec>) {
    |recs'| == |recs| && forall i :: 0 <= i < |recs| ==>
      recs'[i].createdAt == recs[i].createdAt && recs'[i].decision == recs[i].decision && InBand(recs'[i])
  }

  function Nudge(r: Rec): (d: int)
    ensures d == 1 || d == -1
  {
    if InBand(r.(score := r.score + 1)) then 1 else -1
  }

  lemma {:induction false} NudgeStaysInBand(r: Rec)
    requires InBand(r)
    ensures InBand(r.(score := r.score + Nudge(r)))
  {
  }

  function Nudged(recs: seq<Rec>, p: nat): seq<Rec>
    requires p < |recs|
  {
    recs[p := recs[p].(score := recs[p].score + Nudge(recs[p]))]
  }

  lemma {:induction false} NudgedSums(recs: seq<Rec>, p: nat, key: Key, day: int)
    requires p < |recs|
    ensures var k := (DayOf(recs[p]), recs[p].decision);
      && ScoreSum(Nudged(recs, p), key) == ScoreSum(recs, key) + (if key == k then Nudge(recs[p]) else 0)
      && DaySum(Nudged(recs, p), day) == DaySum(recs, day) + (if day == k.0 then Nudge(recs[p]) else 0)
  {
    var recs', before := Nudged(recs, p), recs[..|recs| - 1];
    if p == |recs| - 1 {
      assert recs'[..|recs'| - 1] == before;
    } else {
      NudgedSums(before, p, key, day);
      assert recs'[..|recs'| - 1] == Nudged(before, p);
    }
    hide Nudge;
  }

  lemma {:induction false} NudgedKeys(recs: seq<Rec>, p: nat)
    requires p < |recs| && forall i :: 0 <= i < |recs| ==> InBand(recs[i])
    ensures ItemKeys(Nudged(recs, p)) == ItemKeys(recs) && Rescored(recs, Nudged(recs, p))
  {
    NudgeStaysInBand(recs[p]);
    hide InBand, Nudge;
  }

  /** The row of the nudged result's group, with the average the database now returns. */
  function NudgedRow(row: GroupRow, d: int): GroupRow
    requires row.count > 0
  {
    row.(avgScore := row.avgScore + d as real / row.count as real)
  }

  lemma {:induction false} NudgedProduct(x: real, d: real, n: nat, xs: real)
    requires n > 0 && Times(x, n) == xs
    ensures Times(x + d / n as real, n) == xs + d
  {
    hide *;
    QuotientIs(d, n);
    TimesAdds(x, d / n as real, n);
  }

  lemma {:induction false} FitsWhen(row: GroupRow, recs: seq<Rec>, sum: real)
    requires row.count == Occurrences(ItemKeys(recs), (row.day, row.decision)) > 0
    requires Times(row.avgScore, row.count) == sum && sum == ScoreSum(recs, (row.day, row.decision)) as real
    ensures GroupRowFits(row, recs)
  {
    hide Occurrences, ScoreSum;
  }

  lemma {:induction false} NudgedRowIs(row: GroupRow, d: int)
    requires row.count > 0
    ensures var r := NudgedRow(row, d);
      && r.day == row.day && r.decision == row.decision && r.count == row.count
      && r.avgScore == row.avgScore + d as real / row.count as real
      && Times(r.avgScore - row.avgScore, row.count) == d as real
  {
    QuotientIs(d as real, row.count);
    hide Times;
  }

  lemma {:induction false} NudgedRowFits(row: GroupRow, recs: seq<Rec>, p: nat)
    requires p < |recs| && (forall i :: 0 <= i < |recs| ==> InBand(recs[i])) && GroupRowFits(row, recs)
    requires (row.day, row.decision) == (DayOf(recs[p]), recs[p].decision)
    ensures row.count > 0 && GroupRowFits(NudgedRow(row, Nudge(recs[p])), Nudged(recs, p))
  {
    hide *;
    RowIsMean(row, recs);
    NudgedSums(recs, p, (row.day, row.decision), 0);
    NudgedKeys(recs, p);
    var d, sum := Nudge(recs[p]), ScoreSum(recs, (row.day, row.decision)) as real;
    NudgedRowIs(row, d);
    NudgedProduct(row.avgScore, d as real, row.count, sum);
    FitsWhen(NudgedRow(row, d), Nudged(recs, p), sum + d as real);
  }

  lemma {:induction false} OtherRowFits(row: GroupRow, recs: seq<Rec>, p: nat)
    requires p < |recs| && (forall i :: 0 <= i < |recs| ==> InBand(recs[i])) && GroupRowFits(row, recs)
    requires (row.day, row.decision) != (DayOf(recs[p]), recs[p].decision)
    ensures GroupRowFits(row, Nudged(recs, p))
  {
    hide *;
    RowIsMean(row, recs);
    NudgedSums(recs, p, (row.day, row.decision), 0);
    NudgedKeys(recs, p);
    FitsWhen(row, Nudged(recs, p), ScoreSum(recs, (row.day, row.decision)) as real);
  }

  /** Row `q` is the group of result `p`. */
  ghost predicate GroupOf(rows: seq<GroupRow>, recs: seq<Rec>, p: nat, q: nat) {
    && p < |recs| && q < |rows| && rows[q].count > 0
    && (rows[q].day, rows[q].decision) == (DayOf(recs[p]), recs[p].decision)
  }

  lemma {:induction false} NudgedQuery(rows: seq<GroupRow>, recs: seq<Rec>, p: nat, q: nat)
    requires IsGroupQuery(rows, recs) && GroupOf(rows, recs, p, q) && forall i :: 0 <= i < |recs| ==> InBand(recs[i])
    ensures IsGroupQuery(rows[q := NudgedRow(rows[q], Nudge(recs[p]))], Nudged(recs, p))
  {
    var rows', recs' := rows[q := NudgedRow(rows[q], Nudge(recs[p]))], Nudged(recs, p);
    assert RowKeys(rows') == RowKeys(rows);
    NudgedKeys(recs, p);
    hide Nudge, Nudged, InBand, GroupRowFits;
    forall i | 0 <= i < |rows'| ensures GroupRowFits(rows'[i], recs') {
      if i == q {
        NudgedRowFits(rows[q], recs, p);
      } else {
        assert RowKeys(rows)[i] != RowKeys(rows)[q];
        OtherRowFits(rows[i], recs, p);
      }
    }
  }

  lemma {:induction false} NudgedScores(rows: seq<GroupRow>, q: nat, row: GroupRow)
    requires q < |rows| && row.day == rows[q].day
    ensures var e, e' := EntryOf(rows, row.day), EntryOf(rows[q := row], row.day);
      |e'.scores| == |e.scores| > 0 && Sum(e'.scores) == Sum(e.scores) + row.avgScore - rows[q].avgScore
  {
    var rows', before := rows[q := row], rows[..|rows| - 1];
    var day, last := row.day, rows'[|rows| - 1];
    if q == |rows| - 1 {
      assert rows'[..|rows| - 1] == before;
      var s := EntryOf(before, day).scores;
      assert (s + [row.avgScore])[..|s|] == s && (s + [rows[q].avgScore])[..|s|] == s;
    } else {
      assert rows'[..|rows| - 1] == before[q := row];
      NudgedScores(before, q, row);
      var s, s' := EntryOf(before, day).scores, EntryOf(before[q := row], day).scores;
      assert (s + [last.avgScore])[..|s|] == s && (s' + [last.avgScore])[..|s'|] == s';
    }
  }

  lemma {:induction false} TimesSum(x: real, a: nat, b: nat)
    ensures Times(x, a + b) == Times(x, a) + Times(x, b)
  {
    if b == 0 {
    } else {
      TimesSum(x, a, b - 1);
    }
  }

  lemma {:induction false} TimesTimes(x: real, k: nat, m: nat)
    ensures k * m >= 0 && Times(Times(x, k), m) == Times(x, k * m)
  {
    if m == 0 {
    } else {
      TimesTimes(x, k, m - 1);
      assert k * m == k * (m - 1) + k;
      TimesSum(x, k * (m - 1), k);
    }
  }

  lemma {:induction false} TimesNotZero(x: real, n: nat)
    requires x != 0.0 && n > 0
    ensures if x > 0.0 then Times(x, n) > 0.0 else Times(x, n) < 0.0
  {
    if n == 1 {
      assert Times(x, 0) == 0.0;
    } else {
      TimesNotZero(x, n - 1);
    }
  }

  lemma {:induction false} TimesDiffer(x: real, a: nat, b: nat)
    requires x != 0.0 && a < b
    ensures Times(x, a) != Times(x, b)
  {
    hide *;
    TimesSum(x, a, b - a);
    TimesNotZero(x, b - a);
  }

  lemma {:induction false} ZeroTimes(n: nat)
    ensures Times(0.0, n) == 0.0
  {
    if n == 0 {
    } else {
      ZeroTimes(n - 1);
    }
  }

  lemma {:induction false} GapTimes(x: real, y: real, k: nat)
    ensures Times(y - x, k) == Times(y, k) - Times(x, k)
  {
    TimesAdds(x, y - x, k);
    hide *;
    assert x + (y - x) == y;
  }

  lemma {:induction false} SameFactor(z: real, e: real, d: real, k: nat, n: nat, m: nat)
    requires Times(z, k) == e && Times(z, n) == d && Times(e, m) == d && d != 0.0
    ensures n == k * m
  {
    hide *;
    TimesTimes(z, k, m);
    ZeroTimes(n);
    var km := k * m;
    if n < km {
      TimesDiffer(z, n, km);
    } else if km < n {
      TimesDiffer(z, km, n);
    }
  }

  lemma {:induction false} SameGap(x: real, y: real, s: real, t: real, e: real, d: real, k: nat, n: nat, m: nat)
    requires Times(x, k) == s && Times(y, k) == s + e && Times(x, n) == t && Times(y, n) == t + d
    requires Times(e, m) == d && d != 0.0
    ensures n == k * m
  {
    hide *;
    GapTimes(x, y, k);
    GapTimes(x, y, n);
    SameFactor(y - x, e, d, k, n, m);
  }

  /** Both scorings can show the mean only if the nudged group has its even share of the day. */
  lemma {:induction false} NudgedBreaks(rows: seq<GroupRow>, recs: seq<Rec>, p: nat, q: nat)
    requires GroupOf(rows, recs, p, q) && forall i :: 0 <= i < |recs| ==> InBand(recs[i])
    requires OnDayCount(recs, DayOf(recs[p])) > 0
    requires OnDayCount(Nudged(recs, p), DayOf(recs[p])) == OnDayCount(recs, DayOf(recs[p]))
    requires ShownAverage(rows, DayOf(recs[p])) == DayMean(recs, DayOf(recs[p]))
    requires ShownAverage(rows[q := NudgedRow(rows[q], Nudge(recs[p]))], DayOf(recs[p]))
          == DayMean(Nudged(recs, p), DayOf(recs[p]))
    ensures OnDayCount(recs, DayOf(recs[p])) == |EntryOf(rows, DayOf(recs[p])).scores| * rows[q].count
  {
    assert q < |rows| && rows[q].day == DayOf(recs[p]) && rows[q].count > 0;
    hide *;
    var day, d := DayOf(recs[p]), Nudge(recs[p]);
    var row, n := NudgedRow(rows[q], d), OnDayCount(recs, day);
    NudgedRowIs(rows[q], d);
    NudgedSums(recs, p, (0, ""), day);
    NudgedScores(rows, q, row);
    var s := EntryOf(rows, day).scores;
    ShownIs(rows, day);
    ShownIs(rows[q := row], day);
    MeanIs(recs, day);
    MeanIs(Nudged(recs, p), day);
    SameGap(DayMean(recs, day), DayMean(Nudged(recs, p), day), Sum(s), DaySum(recs, day) as real,
            row.avgScore - rows[q].avgScore, d as real, |s|, n, rows[q].count);
  }

  // ---- When the point shows the mean ----

  /** All decisions taken that day were taken equally often. */
  ghost predicate EvenDay(recs: seq<Rec>, day: int) {
    forall i, j :: 0 <= i < |recs| && 0 <= j < |recs| && DayOf(recs[i]) == day && DayOf(recs[j]) == day ==>
      DecidedOnDay(recs, day, recs[i].decision) == DecidedOnDay(recs, day, recs[j].decision)
  }

  /** For every scoring of the results within the bands of their decisions, the point shows the mean. */
  ghost predicate AlwaysMean(recs: seq<Rec>, day: int) {
    forall recs', rows' :: Rescored(recs, recs') && IsGroupQuery(rows', recs') && OnDayCount(recs', day) > 0 ==>
      ShownAverage(rows', day) == DayMean(recs', day)
  }

  lemma {:induction false} GroupOfResult(rows: seq<GroupRow>, recs: seq<Rec>, p: nat) returns (q: nat)
    requires IsGroupQuery(rows, recs) && p < |recs|
    ensures GroupOf(rows, recs, p, q) && rows[q].count == DecidedOnDay(recs, DayOf(recs[p]), recs[p].decision)
  {
    assert ItemKeys(recs)[p] in RowKeys(rows);
    q :| 0 <= q < |rows| && RowKeys(rows)[q] == ItemKeys(recs)[p];
    assert GroupRowFits(rows[q], recs);
  }

  lemma {:induction false} ResultOfGroup(recs: seq<Rec>, key: Key) returns (p: nat)
    requires Occurrences(ItemKeys(recs), key) > 0
    ensures p < |recs| && (DayOf(recs[p]), recs[p].decision) == key
  {
    OccurrencesIsCount(ItemKeys(recs), key);
    p :| 0 <= p < |recs| && ItemKeys(recs)[p] == key;
  }

  lemma {:induction false} RescoredKeys(recs: seq<Rec>, recs': seq<Rec>)
    requires Rescored(recs, recs')
    ensures ItemKeys(recs') == ItemKeys(recs)
  {
  }

  lemma {:induction false} EvenRows(rows': seq<GroupRow>, recs: seq<Rec>, recs': seq<Rec>, day: int, p: nat)
    requires EvenDay(recs, day) && Rescored(recs, recs') && IsGroupQuery(rows', recs')
    requires p < |recs| && DayOf(recs[p]) == day
    ensures AllCount(rows', day, DecidedOnDay(recs, day, recs[p].decision))
  {
    RescoredKeys(recs, recs');
    hide InBand;
    forall i | 0 <= i < |rows'| && rows'[i].day == day
      ensures rows'[i].count == DecidedOnDay(recs, day, recs[p].decision)
    {
      assert GroupRowFits(rows'[i], recs');
      var j := ResultOfGroup(recs, (day, rows'[i].decision));
    }
  }

  lemma {:induction false} UnevenBreaks(rows: seq<GroupRow>, recs: seq<Rec>, day: int, p: nat)
    requires IsGroupQuery(rows, recs) && (forall i :: 0 <= i < |recs| ==> InBand(recs[i])) && AlwaysMean(recs, day)
    requires p < |recs| && DayOf(recs[p]) == day
    ensures OnDayCount(recs, day) == |EntryOf(rows, day).scores| * DecidedOnDay(recs, day, recs[p].decision)
  {
    var q := GroupOfResult(rows, recs, p);
    NudgedQuery(rows, recs, p, q);
    NudgedKeys(recs, p);
    DayHasResults(recs, p);
    assert Rescored(recs, recs);
    hide *;
    UseAlwaysMean(recs, day, recs, rows);
    SameCountWhenNudged(recs, p);
    UseAlwaysMean(recs, day, Nudged(recs, p), rows[q := NudgedRow(rows[q], Nudge(recs[p]))]);
    NudgedBreaks(rows, recs, p, q);
    assert rows[q].count == DecidedOnDay(recs, day, recs[p].decision);
  }

  lemma {:induction false} SameCountWhenNudged(recs: seq<Rec>, p: nat)
    requires p < |recs| && ItemKeys(Nudged(recs, p)) == ItemKeys(recs)
    ensures OnDayCount(Nudged(recs, p), DayOf(recs[p])) == OnDayCount(recs, DayOf(recs[p]))
  {
  }

  lemma {:induction false} UseAlwaysMean(recs: seq<Rec>, day: int, recs': seq<Rec>, rows': seq<GroupRow>)
    requires AlwaysMean(recs, day) && Rescored(recs, recs') && IsGroupQuery(rows', recs') && OnDayCount(recs', day) > 0
    ensures ShownAverage(rows', day) == DayMean(recs', day)
  {
  }

  lemma {:induction false} DayHasResults(recs: seq<Rec>, p: nat)
    requires p < |recs|
    ensures OnDayCount(recs, DayOf(recs[p])) > 0 && DecidedOnDay(recs, DayOf(recs[p]), recs[p].decision) > 0
  {
    var key := (DayOf(recs[p]), recs[p].decision);
    assert ItemKeys(recs)[p] == key;
    OccurrencesIsCount(ItemKeys(recs), key);
    SomeOnDay(ItemKeys(recs), key);
  }

  lemma {:induction false} EqualFactors(n: nat, k: nat, x: nat, y: nat)
    requires n > 0 && n == k * x == k * y
    ensures x == y
  {
    assert k * (x - y) == 0;
  }

  /**
   Whatever the scores, a day's point shows the mean of the day's scores exactly when all
   decisions taken that day were taken equally often.
   */
  lemma {:induction false} AverageIsMeanIff(rows: seq<GroupRow>, recs: seq<Rec>, day: int)
    requires IsGroupQuery(rows, recs) && forall i :: 0 <= i < |recs| ==> InBand(recs[i])
    ensures EvenDay(recs, day) <==> AlwaysMean(recs, day)
  {
    hide IsGroupQuery, InBand, OnDayCount, DecidedOnDay, ShownAverage, DayMean, Rescored;
    if EvenDay(recs, day) {
      forall recs', rows' | Rescored(recs, recs') && IsGroupQuery(rows', recs') && OnDayCount(recs', day) > 0
        ensures ShownAverage(rows', day) == DayMean(recs', day)
      {
        EvenIsMean(rows', recs, recs', day);
      }
    }
    if AlwaysMean(recs, day) {
      forall i, j | 0 <= i < |recs| && 0 <= j < |recs| && DayOf(recs[i]) == day && DayOf(recs[j]) == day
        ensures DecidedOnDay(recs, day, recs[i].decision) == DecidedOnDay(recs, day, recs[j].decision)
      {
        UnevenBreaks(rows, recs, day, i);
        UnevenBreaks(rows, recs, day, j);
        DayHasResults(recs, i);
        EqualFactors(OnDayCount(recs, day), |EntryOf(rows, day).scores|,
                     DecidedOnDay(recs, day, recs[i].decision), DecidedOnDay(recs, day, recs[j].decision));
      }
    }
  }

  lemma {:induction false} ResultOnDay(recs: seq<Rec>, day: int) returns (p: nat)
    requires OnDayCount(recs, day) > 0
    ensures p < |recs| && DayOf(recs[p]) == day
  {
    var before, last := recs[..|recs| - 1], recs[|recs| - 1];
    assert ItemKeys(recs)[..|recs| - 1] == ItemKeys(before);
    if DayOf(last) == day {
      p := |recs| - 1;
    } else {
      p := ResultOnDay(before, day);
    }
  }

  lemma {:induction false} EvenIsMean(rows': seq<GroupRow>, recs: seq<Rec>, recs': seq<Rec>, day: int)
    requires EvenDay(recs, day) && Rescored(recs, recs') && IsGroupQuery(rows', recs') && OnDayCount(recs', day) > 0
    ensures ShownAverage(rows', day) == DayMean(recs', day)
  {
    RescoredKeys(recs, recs');
    assert OnDayCount(recs, day) == OnDayCount(recs', day) && |recs| == |recs'|;
    hide *;
    var p := ResultOnDay(recs, day);
    DayHasResults(recs, p);
    EvenRows(rows', recs, recs', day, p);
    SameSizeIsMean(rows', recs', day, DecidedOnDay(recs, day, recs[p].decision));
  }

  lemma {:induction false} OneMoreResult(recs: seq<Rec>, r: Rec, key: Key, day: int)
    ensures var next := recs + [r];
      && ScoreSum(next, key) == ScoreSum(recs, key) + (if (DayOf(r), r.decision) == key then r.score else 0)
      && DaySum(next, day) == DaySum(recs, day) + (if DayOf(r) == day then r.score else 0)
      && Occurrences(ItemKeys(next), key)
         == Occurrences(ItemKeys(recs), key) + (if (DayOf(r), r.decision) == key then 1 else 0)
      && OnDayCount(next, day) == OnDayCount(recs, day) + (if DayOf(r) == day then 1 else 0)
  {
    var next := recs + [r];
    assert next[..|recs|] == recs && ItemKeys(next)[..|recs|] == ItemKeys(recs);
  }

  lemma {:induction false} ThreeResults(a: Rec, b: Rec, c: Rec, key: Key, day: int)
    ensures var recs := [a, b, c];
      && ScoreSum(recs, key) == (if (DayOf(a), a.decision) == key then a.score else 0)
         + (if (DayOf(b), b.decision) == key then b.score else 0)
         + (if (DayOf(c), c.decision) == key then c.score else 0)
      && DaySum(recs, day) == (if DayOf(a) == day then a.score else 0)
         + (if DayOf(b) == day then b.score else 0) + (if DayOf(c) == day then c.score else 0)
      && Occurrences(ItemKeys(recs), key) == (if (DayOf(a), a.decision) == key then 1 else 0)
         + (if (DayOf(b), b.decision) == key then 1 else 0) + (if (DayOf(c), c.decision) == key then 1 else 0)
      && OnDayCount(recs, day) == (if DayOf(a) == day then 1 else 0)
         + (if DayOf(b) == day then 1 else 0) + (if DayOf(c) == day then 1 else 0)
  {
    assert ScoreSum([], key) == 0 && DaySum([], day) == 0;
    assert Occurrences(ItemKeys([]), key) == 0 && OnDayCount([], day) == 0;
    hide ScoreSum, DaySum, Occurrences, OnDayCount, DayOf;
    OneMoreResult([], a, key, day);
    OneMoreResult([a], b, key, day);
    OneMoreResult([a, b], c, key, day);
    assert [] + [a] == [a] && [a] + [b] == [a, b] && [a, b] + [c] == [a, b, c];
  }

  lemma {:induction false} TwoRows(a: GroupRow, b: GroupRow)
    requires a.day == b.day == 0
    ensures ShownAverage([a, b], 0) == (a.avgScore + b.avgScore) / 2.0
  {
    var rows, s := [a, b], [a.avgScore, b.avgScore];
    assert rows[..1] == [a] && [a][..0] == [];
    assert s[..1] == [a.avgScore] && [a.avgScore][..0] == [];
    assert EntryOf([a], 0).scores == [a.avgScore];
    assert EntryOf(rows, 0).scores == s;
    assert Sum([a.avgScore]) == a.avgScore;
    assert Sum(s) == a.avgScore + b.avgScore;
  }

  /** Two results scored 0 and one scored 90: the point shows 45, the mean is 30. */
  lemma {:induction false} AverageIsNotMean() returns (rows: seq<GroupRow>, recs: seq<Rec>)
    ensures IsGroupQuery(rows, recs) && (forall i :: 0 <= i < |recs| ==> InBand(recs[i])) && OnDayCount(recs, 0) == 3
    ensures ShownAverage(rows, 0) == 45.0 && DayMean(recs, 0) == 30.0
  {
    var ok, bad := Rec(0, "APPROVED", 0), Rec(0, "REJECT", 90);
    var x, y := GroupRow(0, "APPROVED", 2, 0.0), GroupRow(0, "REJECT", 1, 90.0);
    recs, rows := [ok, ok, bad], [x, y];
    DecisionNamesDiffer();
    ThreeResults(ok, ok, bad, (0, "APPROVED"), 0);
    ThreeResults(ok, ok, bad, (0, "REJECT"), 0);
    TwoRows(x, y);
    hide ScoreSum, DaySum, Occurrences, OnDayCount, ShownAverage;
    assert DayOf(ok) == 0 && DayOf(bad) == 0;
    ZeroTimes(2);
    assert Times(90.0, 0) == 0.0 && Times(90.0, 1) == 90.0;
    FitsWhen(x, recs, 0.0);
    FitsWhen(y, recs, 90.0);
    hide GroupRowFits;
    assert RowKeys(rows)[0] == (0, "APPROVED") && RowKeys(rows)[1] == (0, "REJECT");
  }
}
