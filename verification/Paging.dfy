/** History pages: slices of the rows in descending time order, and when they fit together. */
module Paging {
  import opened Schema

  function Least(a: nat, b: nat): nat { if a < b then a else b }

  /** OFFSET (page - 1) * size LIMIT size, pages counted from one. */
  function Page(order: seq<RequestRow>, page: nat, size: nat): seq<RequestRow>
    requires page >= 1
  {
    Slice(order, (page - 1) * size, size)
  }

  function Slice(order: seq<RequestRow>, offset: nat, limit: nat): seq<RequestRow> {
    var from := Least(offset, |order|);
    order[from..Least(from + limit, |order|)]
  }

  function TotalPages(total: nat, size: nat): nat
    requires size >= 1
  {
    (total + size - 1) / size
  }

  ghost predicate Descending(order: seq<RequestRow>) {
    forall i, j :: 0 <= i < j < |order| ==> order[i].createdAt >= order[j].createdAt
  }

  /** What ORDER BY created_at DESC may return: rows of equal time come in any order. */
  ghost predicate IsHistory(rows: seq<RequestRow>, order: seq<RequestRow>) {
    multiset(order) == multiset(rows) && Descending(order)
  }

  ghost predicate DistinctRows(rows: seq<RequestRow>) {
    forall i, j :: 0 <= i < j < |rows| ==> rows[i] != rows[j]
  }

  /** Pages 1..n, each cut from its own query's order. */
  function Pages(orders: seq<seq<RequestRow>>, n: nat, size: nat): seq<RequestRow>
    requires n <= |orders|
  {
    if n == 0 then [] else Pages(orders, n - 1, size) + Page(orders[n - 1], n, size)
  }

  lemma {:induction false} TotalPagesCover(total: nat, size: nat)
    requires size >= 1
    ensures TotalPages(total, size) * size >= total
    ensures TotalPages(total, size) > 0 ==> (TotalPages(total, size) - 1) * size < total
  {
    var n := TotalPages(total, size);
    assert n * size <= total + size - 1 < n * size + size;
    assert n > 0 ==> (n - 1) * size == n * size - size;
  }

  lemma {:induction false} PageBounds(page: nat, n: nat, size: nat)
    requires size >= 1 && page <= n
    ensures page * size <= n * size
    ensures page >= 1 ==> (page - 1) * size + size == page * size
  {
    assert (n - page) * size >= 0;
  }

  /** Every page before the last is full, the last is not empty, and later pages are empty. */
  lemma {:induction false} PageSizes(order: seq<RequestRow>, page: nat, size: nat)
    requires page >= 1 && size >= 1
    ensures var n := TotalPages(|order|, size);
      && (page < n ==> |Page(order, page, size)| == size)
      && (page == n ==> 0 < |Page(order, page, size)| <= size)
      && (page > n ==> Page(order, page, size) == [])
  {
    var n := TotalPages(|order|, size);
    TotalPagesCover(|order|, size);
    if page < n {
      PageBounds(page, n - 1, size);
    } else if page == n {
      PageBounds(page, n, size);
    } else {
      PageBounds(n, page - 1, size);
    }
  }

  /** Same times at the same positions, whatever the order of the ties. */
  function Moments(order: seq<RequestRow>): (t: seq<int>)
    ensures |t| == |order| && forall i :: 0 <= i < |order| ==> t[i] == order[i].createdAt
  {
    seq(|order|, i requires 0 <= i < |order| => order[i].createdAt)
  }

  lemma {:induction false} SplitOne<T>(s: seq<T>, i: nat)
    requires i < |s|
    ensures multiset(s[..i] + s[i + 1..]) == multiset(s) - multiset{s[i]}
  {
    assert s == s[..i] + [s[i]] + s[i + 1..];
  }

  lemma {:induction false} SplitFirst<T>(s: seq<T>)
    requires s != []
    ensures multiset(s[1..]) == multiset(s) - multiset{s[0]}
    ensures multiset(s) == multiset(s[1..]) + multiset{s[0]}
  {
    assert s == [s[0]] + s[1..];
  }

  lemma {:induction false} TimesRemove(b: seq<RequestRow>, i: nat)
    requires i < |b|
    ensures multiset(Moments(b)) == multiset(Moments(b[..i] + b[i + 1..])) + multiset{b[i].createdAt}
  {
    assert Moments(b)[..i] + Moments(b)[i + 1..] == Moments(b[..i] + b[i + 1..]);
    SplitOne(Moments(b), i);
  }

  lemma {:induction false} TimesMultiset(a: seq<RequestRow>, b: seq<RequestRow>)
    requires multiset(a) == multiset(b)
    ensures multiset(Moments(a)) == multiset(Moments(b))
  {
    if a == [] {
      assert |multiset(b)| == 0;
    } else {
      hide *;
      var i := TakeFirst(a, b);
      TimesMultiset(a[1..], b[..i] + b[i + 1..]);
      TimesRemove(b, i);
      TimesFirst(a);
    }
  }

  lemma {:induction false} TimesFirst(a: seq<RequestRow>)
    requires a != []
    ensures multiset(Moments(a)) == multiset(Moments(a[1..])) + multiset{a[0].createdAt}
  {
    assert Moments(a)[1..] == Moments(a[1..]);
    SplitFirst(Moments(a));
  }

  lemma {:induction false} TakeFirst<T>(a: seq<T>, b: seq<T>) returns (i: nat)
    requires a != [] && multiset(a) == multiset(b)
    ensures i < |b| && b[i] == a[0] && multiset(a[1..]) == multiset(b[..i] + b[i + 1..])
  {
    assert a[0] in multiset(b);
    i :| 0 <= i < |b| && b[i] == a[0];
    SplitFirst(a);
    SplitOne(b, i);
  }

  ghost predicate DescendingInts(t: seq<int>) {
    forall i, j :: 0 <= i < j < |t| ==> t[i] >= t[j]
  }

  lemma {:induction false} FirstIsGreatest(t: seq<int>, x: int)
    requires DescendingInts(t) && x in multiset(t)
    ensures t != [] && x <= t[0]
  {
    var i :| 0 <= i < |t| && t[i] == x;
  }

  lemma {:induction false} SameFirst(s: seq<int>, t: seq<int>)
    requires multiset(s) == multiset(t) && DescendingInts(s) && DescendingInts(t) && s != []
    ensures t != [] && s[0] == t[0] && multiset(s[1..]) == multiset(t[1..])
  {
    assert s[0] in multiset(t);
    FirstIsGreatest(t, s[0]);
    assert t[0] in multiset(s);
    FirstIsGreatest(s, t[0]);
    SplitFirst(s);
    SplitFirst(t);
  }

  lemma {:induction false} DescendingUnique(s: seq<int>, t: seq<int>)
    requires multiset(s) == multiset(t) && DescendingInts(s) && DescendingInts(t)
    ensures s == t
  {
    assert |multiset(s)| == |multiset(t)|;
    if s == [] {
    } else {
      SameFirst(s, t);
      assert DescendingInts(s[1..]) && DescendingInts(t[1..]);
      hide DescendingInts;
      DescendingUnique(s[1..], t[1..]);
      assert s == [s[0]] + s[1..] && t == [t[0]] + t[1..];
    }
  }

  lemma {:induction false} HistoriesShareTimes(rows: seq<RequestRow>, a: seq<RequestRow>, b: seq<RequestRow>)
    requires IsHistory(rows, a) && IsHistory(rows, b)
    ensures |a| == |b| == |rows| && forall i :: 0 <= i < |a| ==> a[i].createdAt == b[i].createdAt
  {
    assert |multiset(a)| == |multiset(rows)| == |multiset(b)|;
    TimesMultiset(a, b);
    DescendingUnique(Moments(a), Moments(b));
    assert forall i :: 0 <= i < |a| ==> Moments(a)[i] == Moments(b)[i];
  }

  /** No two rows of equal time sit on either side of position `i`. */
  ghost predicate CleanCut(order: seq<RequestRow>, i: nat) {
    0 < i < |order| ==> order[i - 1].createdAt > order[i].createdAt
  }

  lemma {:induction false} PrefixCount(order: seq<RequestRow>, i: nat, x: RequestRow)
    requires Descending(order) && 0 < i < |order| && CleanCut(order, i)
    ensures multiset(order[..i])[x] == if x.createdAt >= order[i - 1].createdAt then multiset(order)[x] else 0
  {
    assert order == order[..i] + order[i..];
    assert multiset(order)[x] == multiset(order[..i])[x] + multiset(order[i..])[x];
    if x.createdAt >= order[i - 1].createdAt {
      assert x !in order[i..];
    } else {
      assert x !in order[..i];
    }
  }

  /** At a clean cut all orders have the same rows before it. */
  lemma {:induction false} PrefixAgrees(rows: seq<RequestRow>, a: seq<RequestRow>, b: seq<RequestRow>, i: nat)
    requires IsHistory(rows, a) && IsHistory(rows, b) && i <= |rows| && CleanCut(a, i)
    ensures i <= |a| == |b| && multiset(a[..i]) == multiset(b[..i])
  {
    HistoriesShareTimes(rows, a, b);
    if i == |rows| {
      assert a[..i] == a && b[..i] == b;
    } else if i > 0 {
      forall x ensures multiset(a[..i])[x] == multiset(b[..i])[x] {
        PrefixCount(a, i, x);
        PrefixCount(b, i, x);
      }
    }
  }

  // ---- The pages put together ----

  ghost predicate Answers(rows: seq<RequestRow>, orders: seq<seq<RequestRow>>) {
    forall p :: 0 <= p < |orders| ==> IsHistory(rows, orders[p])
  }

  /** Where page `p` ends in a list of `total` rows. */
  function End(p: nat, size: nat, total: nat): nat { Least(p * size, total) }

  lemma {:induction false} EndStep(p: nat, size: nat, total: nat)
    requires p >= 1 && size >= 1
    ensures End(p - 1, size, total) <= End(p, size, total) <= total
    ensures Least(Least((p - 1) * size, total) + size, total) == End(p, size, total)
  {
    PageBounds(p, p, size);
  }

  lemma {:induction false} PageIsSlice(order: seq<RequestRow>, p: nat, size: nat)
    requires p >= 1 && size >= 1
    ensures End(p - 1, size, |order|) <= End(p, size, |order|) <= |order|
    ensures Page(order, p, size) == order[End(p - 1, size, |order|)..End(p, size, |order|)]
  {
    EndStep(p, size, |order|);
  }

  lemma {:induction false} PagesLength(rows: seq<RequestRow>, orders: seq<seq<RequestRow>>, n: nat, size: nat)
    requires size >= 1 && n <= |orders| && Answers(rows, orders)
    ensures |Pages(orders, n, size)| == End(n, size, |rows|)
  {
    if n == 0 {
    } else {
      PagesLength(rows, orders, n - 1, size);
      SameLength(rows, orders[n - 1]);
      PageIsSlice(orders[n - 1], n, size);
    }
  }

  lemma {:induction false} SameLength(rows: seq<RequestRow>, order: seq<RequestRow>)
    requires IsHistory(rows, order)
    ensures |rows| == |order|
  {
    assert |multiset(order)| == |multiset(rows)|;
  }

  lemma {:induction false} LastPageAt(rows: seq<RequestRow>, orders: seq<seq<RequestRow>>, p: nat, size: nat)
    requires size >= 1 && 1 <= p <= |orders| && Answers(rows, orders)
    ensures |orders[p - 1]| == |rows| && End(p, size, |rows|) == |Pages(orders, p, size)|
    ensures forall j :: End(p - 1, size, |rows|) <= j < End(p, size, |rows|) ==>
      Pages(orders, p, size)[j] == orders[p - 1][j]
  {
    var order := orders[p - 1];
    SameLength(rows, order);
    PagesLength(rows, orders, p - 1, size);
    PageIsSlice(order, p, size);
    hide End, Page, Answers, IsHistory;
    var before := Pages(orders, p - 1, size);
    var lo, hi := End(p - 1, size, |rows|), End(p, size, |rows|);
    assert Pages(orders, p, size) == before + order[lo..hi] && |before| == lo;
  }

  /** The positions of page `p` in the joined pages come from the query of that page. */
  lemma {:induction false} PagesAt(rows: seq<RequestRow>, orders: seq<seq<RequestRow>>, n: nat, p: nat, size: nat)
    requires size >= 1 && 1 <= p <= n <= |orders| && Answers(rows, orders)
    ensures |orders[p - 1]| == |rows| && End(p, size, |rows|) <= |Pages(orders, n, size)|
    ensures forall j :: End(p - 1, size, |rows|) <= j < End(p, size, |rows|) ==>
      Pages(orders, n, size)[j] == orders[p - 1][j]
  {
    hide End, Page, Answers, IsHistory;
    if p < n {
      PagesAt(rows, orders, n - 1, p, size);
    } else {
      LastPageAt(rows, orders, p, size);
    }
  }

  /** With one order for all queries the pages give back that order: nothing skipped, nothing repeated. */
  lemma {:induction false} FixedOrderPages(order: seq<RequestRow>, size: nat)
    requires size >= 1
    ensures var n := TotalPages(|order|, size); Pages(seq(n, i => order), n, size) == order
  {
    var n := TotalPages(|order|, size);
    FixedOrderPrefix(order, seq(n, i => order), n, size);
    TotalPagesCover(|order|, size);
  }

  lemma {:induction false} FixedOrderPrefix(order: seq<RequestRow>, orders: seq<seq<RequestRow>>, n: nat, size: nat)
    requires size >= 1 && n <= |orders| && forall i :: 0 <= i < |orders| ==> orders[i] == order
    ensures End(n, size, |order|) <= |order| && Pages(orders, n, size) == order[..End(n, size, |order|)]
  {
    if n == 0 {
    } else {
      hide End, Page;
      FixedOrderPrefix(order, orders, n - 1, size);
      PageIsSlice(order, n, size);
      JoinPrefix(order, End(n - 1, size, |order|), End(n, size, |order|));
    }
  }

  lemma {:induction false} JoinPrefix<T>(s: seq<T>, lo: nat, hi: nat)
    requires lo <= hi <= |s|
    ensures s[..lo] + s[lo..hi] == s[..hi]
  {
  }

  /** No two rows of equal time are parted by the end of page `k`. */
  ghost predicate CleanBoundary(order: seq<RequestRow>, k: nat, size: nat) {
    CleanCut(order, k * size)
  }

  ghost predicate NoTieAcrossPages(order: seq<RequestRow>, size: nat) {
    forall k: nat :: CleanBoundary(order, k, size)
  }

  /** `all` holds the first `i` rows of `base`, at the same times. */
  ghost predicate Matches(all: seq<RequestRow>, base: seq<RequestRow>, i: nat) {
    i <= |base| && multiset(all) == multiset(base[..i]) && Moments(all) == Moments(base)[..i]
  }

  lemma {:induction false} PagesStep(rows: seq<RequestRow>, base: seq<RequestRow>, orders: seq<seq<RequestRow>>,
                                     n: nat, size: nat)
    requires size >= 1 && 0 < n <= |orders| && Answers(rows, orders)
    requires IsHistory(rows, base) && NoTieAcrossPages(base, size)
    requires Matches(Pages(orders, n - 1, size), base, End(n - 1, size, |rows|))
    ensures Matches(Pages(orders, n, size), base, End(n, size, |rows|))
  {
    hide IsHistory, NoTieAcrossPages, Page, Matches;
    var order := orders[n - 1];
    HistoriesShareTimes(rows, base, order);
    PageIsSlice(order, n, size);
    CutAt(rows, base, order, n - 1, size);
    CutAt(rows, base, order, n, size);
    hide End;
    JoinSlice(Pages(orders, n - 1, size), base, order, End(n - 1, size, |rows|), End(n, size, |rows|));
  }

  lemma {:induction false} PagesPrefix(rows: seq<RequestRow>, base: seq<RequestRow>, orders: seq<seq<RequestRow>>,
                                       n: nat, size: nat)
    requires size >= 1 && n <= |orders| && Answers(rows, orders)
    requires IsHistory(rows, base) && NoTieAcrossPages(base, size)
    ensures Matches(Pages(orders, n, size), base, End(n, size, |rows|))
  {
    if n > 0 {
      hide *;
      PagesPrefix(rows, base, orders, n - 1, size);
      PagesStep(rows, base, orders, n, size);
    } else {
      assert End(n, size, |rows|) == 0;
    }
  }

  lemma {:induction false} SliceMultiset(s: seq<RequestRow>, lo: nat, hi: nat)
    requires lo <= hi <= |s|
    ensures multiset(s[..hi]) == multiset(s[..lo]) + multiset(s[lo..hi])
  {
    assert s[..hi] == s[..lo] + s[lo..hi];
  }

  lemma {:induction false} JoinSlice(before: seq<RequestRow>, base: seq<RequestRow>, order: seq<RequestRow>, lo: nat,
                                     hi: nat)
    requires lo <= hi <= |base| == |order| && Matches(before, base, lo)
    requires multiset(base[..lo]) == multiset(order[..lo]) && multiset(base[..hi]) == multiset(order[..hi])
    requires forall i :: 0 <= i < |base| ==> base[i].createdAt == order[i].createdAt
    ensures Matches(before + order[lo..hi], base, hi)
  {
    SliceMultiset(order, lo, hi);
    JoinTimes(before, base, order, lo, hi);
  }

  lemma {:induction false} JoinTimes(before: seq<RequestRow>, base: seq<RequestRow>, order: seq<RequestRow>, lo: nat,
                                     hi: nat)
    requires lo <= hi <= |base| == |order| && Moments(before) == Moments(base)[..lo]
    requires forall i :: 0 <= i < |base| ==> base[i].createdAt == order[i].createdAt
    ensures Moments(before + order[lo..hi]) == Moments(base)[..hi]
  {
    var all, t := before + order[lo..hi], Moments(base);
    assert |before| == |Moments(before)| == lo;
    forall i | 0 <= i < hi ensures i < |all| && Moments(all)[i] == t[..hi][i] {
      if i < lo { assert Moments(before)[i] == t[..lo][i]; }
    }
  }

  lemma {:induction false} CutAt(rows: seq<RequestRow>, base: seq<RequestRow>, order: seq<RequestRow>, k: nat,
                                 size: nat)
    requires IsHistory(rows, base) && IsHistory(rows, order) && NoTieAcrossPages(base, size)
    ensures var i := End(k, size, |rows|); i <= |base| == |order| && multiset(base[..i]) == multiset(order[..i])
  {
    HistoriesShareTimes(rows, base, order);
    assert CleanBoundary(base, k, size);
    PrefixAgrees(rows, base, order, End(k, size, |rows|));
  }

  lemma {:induction false} PagesFitTogether(rows: seq<RequestRow>, base: seq<RequestRow>,
                                            orders: seq<seq<RequestRow>>, size: nat)
    requires size >= 1 && IsHistory(rows, base) && NoTieAcrossPages(base, size)
    requires Answers(rows, orders) && |orders| == TotalPages(|rows|, size)
    ensures IsHistory(rows, Pages(orders, |orders|, size))
  {
    PagesPrefix(rows, base, orders, |orders|, size);
    TotalPagesCover(|rows|, size);
    HistoriesShareTimes(rows, base, base);
    var all := Pages(orders, |orders|, size);
    assert base[..|rows|] == base && Moments(base)[..|rows|] == Moments(base);
    assert forall i :: 0 <= i < |all| ==> Moments(all)[i] == Moments(base)[i];
  }

  lemma {:induction false} ThreeParts<T>(a: seq<T>, b: seq<T>, c: seq<T>)
    ensures multiset(a + b + c) == multiset(a) + multiset(b) + multiset(c)
  {
  }

  lemma {:induction false} SwapTwo<T>(s: seq<T>, i: nat)
    requires 0 < i < |s|
    ensures multiset(s[i - 1 := s[i]][i := s[i - 1]]) == multiset(s)
  {
    var a, x, y, c := s[..i - 1], s[i - 1], s[i], s[i + 1..];
    assert s == a + [x, y] + c && s[i - 1 := y][i := x] == a + [y, x] + c;
    ThreeParts(a, [x, y], c);
    ThreeParts(a, [y, x], c);
    assert multiset([x, y]) == multiset{x, y} == multiset([y, x]);
  }

  lemma {:induction false} SwapTie(base: seq<RequestRow>, i: nat)
    requires Descending(base) && 0 < i < |base| && base[i - 1].createdAt == base[i].createdAt
    ensures Descending(base[i - 1 := base[i]][i := base[i - 1]])
  {
    var other := base[i - 1 := base[i]][i := base[i - 1]];
    assert forall j :: 0 <= j < |base| ==> other[j].createdAt == base[j].createdAt;
  }

  /** The query may as well have returned the two tied rows the other way round. */
  lemma {:induction false} SwappedIsHistory(rows: seq<RequestRow>, base: seq<RequestRow>, i: nat)
    returns (other: seq<RequestRow>)
    requires IsHistory(rows, base) && 0 < i < |base| && !CleanCut(base, i)
    ensures other == base[i - 1 := base[i]][i := base[i - 1]] && IsHistory(rows, other)
  {
    other := base[i - 1 := base[i]][i := base[i - 1]];
    assert base[i - 1].createdAt == base[i].createdAt;
    SwapTie(base, i);
    hide Descending, CleanCut;
    SwapTwo(base, i);
  }

  lemma {:induction false} DistinctCount(rows: seq<RequestRow>, x: RequestRow)
    requires DistinctRows(rows)
    ensures multiset(rows)[x] <= 1
  {
    if rows == [] {
    } else {
      var before, last := rows[..|rows| - 1], rows[|rows| - 1];
      DistinctCount(before, x);
      assert rows == before + [last];
      assert last !in before;
    }
  }

  lemma {:induction false} RepeatedCount(s: seq<RequestRow>, i: nat)
    requires 0 < i < |s| && s[i - 1] == s[i]
    ensures multiset(s)[s[i]] >= 2
  {
    assert s == s[..i - 1] + [s[i - 1], s[i]] + s[i + 1..];
  }

  /** A tie across the end of page `k` lets the row before it appear on both pages. */
  lemma {:induction false} TieRepeatsRow(rows: seq<RequestRow>, base: seq<RequestRow>, k: nat, size: nat)
    returns (orders: seq<seq<RequestRow>>)
    requires size >= 1 && IsHistory(rows, base) && DistinctRows(rows) && !CleanBoundary(base, k, size)
    ensures Answers(rows, orders) && |orders| == TotalPages(|rows|, size)
    ensures !IsHistory(rows, Pages(orders, |orders|, size))
  {
    var i, n := k * size, TotalPages(|rows|, size);
    HistoriesShareTimes(rows, base, base);
    TotalPagesCover(|rows|, size);
    BoundaryPages(k, n, size, |rows|);
    var other := SwappedIsHistory(rows, base, i);
    orders := seq(n, p => if p == k then other else base);
    PagesAt(rows, orders, n, k, size);
    PagesAt(rows, orders, n, k + 1, size);
    var all := Pages(orders, n, size);
    assert all[i - 1] == orders[k - 1][i - 1] == base[i - 1];
    assert all[i] == orders[k][i] == base[i - 1];
    RepeatedCount(all, i);
    DistinctCount(rows, base[i - 1]);
  }

  lemma {:induction false} BoundaryPages(k: nat, n: nat, size: nat, total: nat)
    requires size >= 1 && 0 < k * size < total <= n * size
    ensures 1 <= k < n && End(n, size, total) == total
    ensures End(k - 1, size, total) <= k * size - 1 < End(k, size, total) == k * size < End(k + 1, size, total)
  {
    if k >= n {
      PageBounds(n, k, size);
    }
    PageBounds(k, k, size);
    PageBounds(k + 1, k + 1, size);
  }

  /**
   The pages, each from its own query, put together are the whole history, newest first and
   without gap or repeat, for every way the queries may order ties, exactly when no page
   ends between two rows of equal time.
   */
  lemma {:induction false} PagesFitTogetherIff(rows: seq<RequestRow>, base: seq<RequestRow>, size: nat)
    requires size >= 1 && IsHistory(rows, base) && DistinctRows(rows)
    ensures NoTieAcrossPages(base, size) <==>
      forall orders :: Answers(rows, orders) && |orders| == TotalPages(|rows|, size) ==>
        IsHistory(rows, Pages(orders, |orders|, size))
  {
    if NoTieAcrossPages(base, size) {
      forall orders | Answers(rows, orders) && |orders| == TotalPages(|rows|, size)
        ensures IsHistory(rows, Pages(orders, |orders|, size))
      {
        PagesFitTogether(rows, base, orders, size);
      }
    } else {
      var k: nat :| !CleanBoundary(base, k, size);
      var orders := TieRepeatsRow(rows, base, k, size);
    }
  }
}
