/** Counters whose deadline is set by the first touch only: how many touches a limit lets through. */
module FixedWindow {
  import opened Common
  import opened TtlStore

  /** The limiter's window, one minute. */
  const WINDOW := 60 * SECOND

  ghost predicate AllFixed(touches: seq<Touch>, key: string) {
    forall i :: 0 <= i < |touches| && touches[i].key == key ==> touches[i].onFirst && touches[i].ttl == WINDOW
  }

  /** How many touches of `key` in the closed interval [a, b] read at most `limit`. */
  function AdmittedIn(touches: seq<Touch>, key: string, limit: nat, a: int, b: int): nat {
    if touches == [] then 0
    else
      var last := touches[|touches| - 1];
      AdmittedIn(touches[..|touches| - 1], key, limit, a, b)
      + (if last.key == key && a <= last.at <= b && Reading(touches, |touches| - 1) <= limit then 1 else 0)
  }

  /** A length in windows, rounded up. */
  function WindowsIn(length: int): (n: nat)
    ensures length > 0 ==> WINDOW * (n - 1) < length <= WINDOW * n
    ensures length <= 0 ==> n == 0
  {
    if length <= 0 then 0 else (length + WINDOW - 1) / WINDOW
  }

  lemma {:induction false} WindowsStep(u: int, v: int)
    ensures u <= v ==> WindowsIn(u) <= WindowsIn(v)
    ensures u + WINDOW <= v && v > 0 ==> WindowsIn(u) + 1 <= WindowsIn(v)
  {
  }

  lemma {:induction false} ScaleWindows(limit: nat, x: nat, y: nat)
    ensures limit * (x + 1) == limit * x + limit && limit * x >= 0
    ensures x <= y ==> limit * x <= limit * y
  {
  }

  function Min(a: int, b: int): int { if a < b then a else b }

  ghost predicate WindowCell(cell: Option<Cell>, now: int) {
    cell.Some? ==> cell.value.count >= 1 && cell.value.deadline.Some? && cell.value.deadline.value <= now + WINDOW
  }

  function Start(cell: Cell): int
    requires cell.deadline.Some?
  {
    cell.deadline.value - WINDOW
  }

  lemma {:induction false} TouchFixed(store: Store, t: Touch)
    requires t.onFirst && t.ttl == WINDOW && WindowCell(Lookup(store, t.key), t.at)
    ensures var cell := Lookup(Touched(store, t), t.key);
      cell == Some(if Live(store, t.key, t.at) then store[t.key].(count := store[t.key].count + 1)
                   else Cell(1, Some(t.at + WINDOW)))
    ensures Live(store, t.key, t.at) ==> t.at < store[t.key].deadline.value
    ensures !Live(store, t.key, t.at) && t.key in store ==> store[t.key].deadline.value <= t.at
    ensures Count(store, t.key, t.at) + 1 == Touched(store, t)[t.key].count
  {
  }

  /** The admissions `n` since `a` fit the windows begun since then and the current count. */
  ghost predicate Accounted(cell: Option<Cell>, n: nat, limit: nat, a: int) {
    n > 0 ==>
      && cell.Some? && cell.value.deadline.Some? && a < cell.value.deadline.value
      && n <= Min(cell.value.count, limit) + limit * WindowsIn(Start(cell.value) - a)
  }

  lemma {:induction false} SameWindow(cell: Cell, n: nat, limit: nat, a: int, t: int)
    requires Accounted(Some(cell), n, limit, a) && cell.deadline.Some? && t < cell.deadline.value
    ensures Accounted(Some(cell.(count := cell.count + 1)),
                      if a <= t && cell.count + 1 <= limit then n + 1 else n, limit, a)
  {
    hide WindowsIn;
    ScaleWindows(limit, WindowsIn(Start(cell) - a), 0);
    assert Start(cell.(count := cell.count + 1)) == Start(cell);
  }

  lemma {:induction false} NextWindow(cell: Option<Cell>, n: nat, limit: nat, a: int, t: int)
    requires Accounted(cell, n, limit, a)
    requires cell.Some? && cell.value.deadline.Some? ==> cell.value.deadline.value <= t
    ensures Accounted(Some(Cell(1, Some(t + WINDOW))), if a <= t && 1 <= limit then n + 1 else n, limit, a)
  {
    var y := WindowsIn(t - a);
    ScaleWindows(limit, y, y);
    if n > 0 {
      var x := WindowsIn(Start(cell.value) - a);
      WindowsStep(Start(cell.value) - a, t - a);
      hide WindowsIn;
      ScaleWindows(limit, x, y);
      ScaleWindows(limit, x + 1, y);
      assert n <= limit * y;
    }
    hide WindowsIn;
    assert Start(Cell(1, Some(t + WINDOW))) == t;
  }

  lemma {:induction false} AccountedFits(cell: Cell, n: nat, limit: nat, a: int, b: int)
    requires Accounted(Some(cell), n, limit, a) && a <= b && cell.deadline.Some? && Start(cell) <= b
    ensures n <= limit * (WindowsIn(b - a) + 1)
  {
    var x, y := WindowsIn(Start(cell) - a), WindowsIn(b - a);
    WindowsStep(Start(cell) - a, b - a);
    hide WindowsIn;
    ScaleWindows(limit, x, y);
    ScaleWindows(limit, y, y);
  }

  lemma {:induction false} AdmissionStep(cell: Option<Cell>, n: nat, limit: nat, a: int, t: int, live: bool)
    requires Accounted(cell, n, limit, a) && WindowCell(cell, t)
    requires if live then cell.Some? && t < cell.value.deadline.value
             else cell.Some? ==> cell.value.deadline.value <= t
    ensures var cell' := if live then cell.value.(count := cell.value.count + 1) else Cell(1, Some(t + WINDOW));
      Accounted(Some(cell'), if a <= t && cell'.count <= limit then n + 1 else n, limit, a)
      && cell'.deadline.Some? && Start(cell') <= t
  {
    if live {
      SameWindow(cell.value, n, limit, a, t);
    } else {
      NextWindow(cell, n, limit, a, t);
    }
  }

  /** The cell a limiter touch leaves. */
  function NextCell(cell: Option<Cell>, live: bool, t: int): Cell {
    if live && cell.Some? then cell.value.(count := cell.value.count + 1) else Cell(1, Some(t + WINDOW))
  }

  lemma {:induction false} LastTouch(touches: seq<Touch>, key: string, limit: nat, a: int, b: int)
    requires touches != [] && touches[|touches| - 1].key == key
    requires touches[|touches| - 1].onFirst && touches[|touches| - 1].ttl == WINDOW
    requires WindowCell(Lookup(Run(touches[..|touches| - 1]), key), touches[|touches| - 1].at)
    ensures var before, t := touches[..|touches| - 1], touches[|touches| - 1].at; var cell := Lookup(Run(before), key);
      var cell' := NextCell(cell, Live(Run(before), key, t), t);
      && Lookup(Run(touches), key) == Some(cell')
      && Reading(touches, |touches| - 1) == cell'.count
      && AdmittedIn(touches, key, limit, a, b)
         == AdmittedIn(before, key, limit, a, b) + if a <= t <= b && cell'.count <= limit then 1 else 0
  {
    TouchFixed(Run(touches[..|touches| - 1]), touches[|touches| - 1]);
  }

  lemma {:induction false} AdmissionTouch(touches: seq<Touch>, key: string, limit: nat, a: int, b: int)
    requires touches != [] && touches[|touches| - 1].key == key
    requires touches[|touches| - 1].onFirst && touches[|touches| - 1].ttl == WINDOW && a <= b
    requires var before, last := touches[..|touches| - 1], touches[|touches| - 1];
      var n, cell := AdmittedIn(before, key, limit, a, b), Lookup(Run(before), key);
      n <= limit * (WindowsIn(b - a) + 1) && Accounted(cell, n, limit, a) && WindowCell(cell, last.at)
    ensures var n, cell := AdmittedIn(touches, key, limit, a, b), Lookup(Run(touches), key);
      n <= limit * (WindowsIn(b - a) + 1) && Accounted(cell, n, limit, a) && WindowCell(cell, touches[|touches| - 1].at)
  {
    var before, last := touches[..|touches| - 1], touches[|touches| - 1];
    var store, t := Run(before), last.at;
    var n, cell := AdmittedIn(before, key, limit, a, b), Lookup(store, key);
    LastTouch(touches, key, limit, a, b);
    AdmissionStep(cell, n, limit, a, t, Live(store, key, t));
    var cell' := NextCell(cell, Live(store, key, t), t);
    var n' := AdmittedIn(touches, key, limit, a, b);
    hide WindowsIn, AdmittedIn, RunFrom, Run;
    assert Accounted(Some(cell'), n', limit, a);
    if n' > n {
      AccountedFits(cell', n', limit, a, b);
    }
  }

  lemma {:induction false} AdmissionInvariant(touches: seq<Touch>, key: string, limit: nat, a: int, b: int)
    requires a <= b && InTimeOrder(touches) && AllFixed(touches, key)
    ensures var n, cell := AdmittedIn(touches, key, limit, a, b), Lookup(Run(touches), key);
      n <= limit * (WindowsIn(b - a) + 1) && Accounted(cell, n, limit, a)
    ensures if touches == [] then Lookup(Run(touches), key) == None
            else WindowCell(Lookup(Run(touches), key), touches[|touches| - 1].at)
  {
    if touches == [] {
      ScaleWindows(limit, WindowsIn(b - a), 0);
    } else {
      var before, last := touches[..|touches| - 1], touches[|touches| - 1];
      AdmissionInvariant(before, key, limit, a, b);
      assert before != [] ==> before[|before| - 1].at <= last.at;
      TouchIsLocal(Run(before), Run(before), last, key);
      hide Touched, Accounted, WindowsIn;
      if last.key == key {
        AdmissionTouch(touches, key, limit, a, b);
      }
    }
  }

  /**
   In any time-ordered traffic, a closed interval lets through at most the limit times one more than
   the windows covering it.
   */
  lemma {:induction false} AdmissionsBounded(touches: seq<Touch>, key: string, limit: nat, a: int, b: int)
    requires a <= b && InTimeOrder(touches) && AllFixed(touches, key)
    ensures AdmittedIn(touches, key, limit, a, b) <= limit * (WindowsIn(b - a) + 1)
  {
    AdmissionInvariant(touches, key, limit, a, b);
  }

  /** The bound for an interval of at most the given number of windows. */
  lemma {:induction false} AdmissionsWithin(touches: seq<Touch>, key: string, limit: nat, a: int, b: int, windows: nat)
    requires a <= b <= a + windows * WINDOW && InTimeOrder(touches) && AllFixed(touches, key)
    ensures AdmittedIn(touches, key, limit, a, b) <= limit * (windows + 1)
  {
    AdmissionsBounded(touches, key, limit, a, b);
    assert WindowsIn(b - a) <= windows;
    hide *;
    ScaleWindows(limit, WindowsIn(b - a) + 1, windows + 1);
  }

  /** A limiter touch in terms of the bucket's cell alone. */
  lemma {:induction false} TouchAdds(before: seq<Touch>, t: int, key: string, limit: nat, a: int, b: int)
    requires WindowCell(Lookup(Run(before), key), t)
    ensures var cell, touches := Lookup(Run(before), key), before + [Touch(t, key, WINDOW, true)];
      var next := NextCell(cell, cell.Some? && t < cell.value.deadline.value, t);
      && Lookup(Run(touches), key) == Some(next)
      && AdmittedIn(touches, key, limit, a, b)
         == AdmittedIn(before, key, limit, a, b) + if a <= t <= b && next.count <= limit then 1 else 0
  {
    var touches := before + [Touch(t, key, WINDOW, true)];
    assert touches[..|touches| - 1] == before && touches[|touches| - 1] == Touch(t, key, WINDOW, true);
    LookupLive(Run(before), key, t);
    hide AdmittedIn, RunFrom, Run, Live;
    LastTouch(touches, key, limit, a, b);
  }

  lemma {:induction false} LookupLive(store: Store, key: string, now: int)
    ensures Live(store, key, now) <==>
      Lookup(store, key).Some? &&
      (Lookup(store, key).value.deadline.Some? ==> now < Lookup(store, key).value.deadline.value)
  {
  }

  // ---- The bound is reached ----

  /** `k` touches of the bucket at one moment. */
  function Same(key: string, t: int, k: nat): seq<Touch> {
    seq(k, i => Touch(t, key, WINDOW, true))
  }

  /** A whole limit of touches at the start of each of `n` windows. */
  function Bursts(key: string, limit: nat, n: nat): seq<Touch> {
    if n == 0 then [] else Bursts(key, limit, n - 1) + Same(key, (n - 1) * WINDOW, limit)
  }

  /** Limiter touches of one bucket in time order, none after `t`. */
  ghost predicate InOrderBy(touches: seq<Touch>, key: string, t: int) {
    InTimeOrder(touches) && AllFixed(touches, key) && forall i :: 0 <= i < |touches| ==> touches[i].at <= t
  }

  lemma {:induction false} AppendSame(touches: seq<Touch>, key: string, t: int, u: int, k: nat)
    requires InOrderBy(touches, key, t) && t <= u
    ensures InOrderBy(touches + Same(key, u, k), key, u)
  {
  }

  lemma {:induction false} BurstsInOrder(key: string, limit: nat, n: nat)
    ensures InOrderBy(Bursts(key, limit, n), key, (n - 1) * WINDOW)
  {
    if n == 0 {
    } else {
      hide InOrderBy, Same;
      BurstsInOrder(key, limit, n - 1);
      AppendSame(Bursts(key, limit, n - 1), key, (n - 1 - 1) * WINDOW, (n - 1) * WINDOW, limit);
    }
  }

  /** The bucket's cell after `n` whole bursts and `k` touches of the next. */
  function BurstCell(limit: nat, n: nat, k: nat): Option<Cell> {
    if k > 0 then Some(Cell(k, Some(n * WINDOW + WINDOW)))
    else if n > 0 && limit > 0 then Some(Cell(limit, Some(n * WINDOW)))
    else None
  }

  lemma {:induction false} BurstStep(limit: nat, n: nat, k: nat)
    requires k < limit
    ensures var t, cell := n * WINDOW, BurstCell(limit, n, k);
      && WindowCell(cell, t)
      && BurstCell(limit, n, k + 1) == Some(NextCell(cell, cell.Some? && t < cell.value.deadline.value, t))
  {
  }

  lemma {:induction false} SameOneMore(before: seq<Touch>, key: string, t: int, k: nat)
    ensures before + Same(key, t, k + 1) == before + Same(key, t, k) + [Touch(t, key, WINDOW, true)]
    ensures Same(key, t, 0) == []
  {
  }

  lemma {:induction false} BurstsOneMore(key: string, limit: nat, n: nat)
    ensures Bursts(key, limit, n + 1) + Same(key, (n + 1) * WINDOW, 0)
         == Bursts(key, limit, n) + Same(key, n * WINDOW, limit)
    ensures limit * (n + 1) == limit * n + limit && 0 <= n * WINDOW <= (n + 1) * WINDOW
    ensures BurstCell(limit, n + 1, 0) == if limit > 0 then BurstCell(limit, n, limit) else BurstCell(limit, n, 0)
  {
    ScaleWindows(limit, n, n);
  }

  lemma {:induction false} NoBurst(key: string, limit: nat, b: int)
    ensures Bursts(key, limit, 0) + Same(key, 0 * WINDOW, 0) == []
    ensures AdmittedIn([], key, limit, 0, b) == limit * 0 + 0 && Lookup(Run([]), key) == BurstCell(limit, 0, 0)
  {
  }

  lemma {:induction false} BurstsAdmitted(key: string, limit: nat, n: nat, k: nat, b: int)
    requires k <= limit && n * WINDOW <= b
    ensures var touches := Bursts(key, limit, n) + Same(key, n * WINDOW, k);
      AdmittedIn(touches, key, limit, 0, b) == limit * n + k && Lookup(Run(touches), key) == BurstCell(limit, n, k)
    decreases n, k
  {
    hide *;
    if k > 0 {
      BurstsAdmitted(key, limit, n, k - 1, b);
      SameOneMore(Bursts(key, limit, n), key, n * WINDOW, k - 1);
      BurstStep(limit, n, k - 1);
      BurstCount(limit, n, k);
      TouchAdds(Bursts(key, limit, n) + Same(key, n * WINDOW, k - 1), n * WINDOW, key, limit, 0, b);
    } else if n > 0 {
      BurstsOneMore(key, limit, n - 1);
      BurstsAdmitted(key, limit, n - 1, limit, b);
    } else {
      NoBurst(key, limit, b);
    }
  }

  lemma {:induction false} BurstCount(limit: nat, n: nat, k: nat)
    ensures k > 0 ==> BurstCell(limit, n, k).Some? && BurstCell(limit, n, k).value.count == k && 0 <= n * WINDOW
  {
  }

  /**
   The bound is reached for every number of windows: a burst at the start of each and one at the
   very end pass whole.
   */
  lemma {:induction false} BurstsReachBound(key: string, limit: nat, windows: nat)
    ensures InTimeOrder(Bursts(key, limit, windows + 1)) && AllFixed(Bursts(key, limit, windows + 1), key)
    ensures AdmittedIn(Bursts(key, limit, windows + 1), key, limit, 0, windows * WINDOW) == limit * (windows + 1)
  {
    BurstsInOrder(key, limit, windows + 1);
    assert windows + 1 - 1 == windows;
    hide InTimeOrder, AllFixed, AdmittedIn, RunFrom, Run;
    BurstsAdmitted(key, limit, windows, limit, windows * WINDOW);
    ScaleWindows(limit, windows, windows);
  }

  // ---- When a whole window keeps to the limit ----

  /** No window is open, or the open one is used up. */
  predicate Settled(store: Store, key: string, limit: nat, a: int) {
    !Live(store, key, a) || Count(store, key, a) >= limit
  }

  /** No window opened since `a` and nothing was admitted, or one window accounts for all that was. */
  ghost predicate OneWindow(cell: Option<Cell>, n: nat, limit: nat, a: int) {
    if cell.None? then n == 0
    else
      cell.value.deadline.Some? &&
      (|| (n == 0 && (cell.value.deadline.value <= a || cell.value.count >= limit))
       || (a <= Start(cell.value) && n <= limit && (Start(cell.value) < a + WINDOW ==> n <= cell.value.count)))
  }

  lemma {:induction false} OneWindowStep(cell: Option<Cell>, n: nat, limit: nat, a: int, t: int)
    requires OneWindow(cell, n, limit, a) && WindowCell(cell, t) && a <= t
    ensures var next := NextCell(cell, cell.Some? && t < cell.value.deadline.value, t);
      OneWindow(Some(next), if a <= t <= a + WINDOW - 1 && next.count <= limit then n + 1 else n, limit, a)
  {
  }

  lemma {:induction false} NoneEarlier(touches: seq<Touch>, key: string, limit: nat, a: int, b: int)
    requires forall i :: 0 <= i < |touches| ==> touches[i].at < a
    ensures AdmittedIn(touches, key, limit, a, b) == 0
  {
    if touches == [] {
    } else {
      NoneEarlier(touches[..|touches| - 1], key, limit, a, b);
    }
  }

  /** Every cell the touches of one bucket leave is that of a window begun by now. */
  lemma {:induction false} CellIsWindow(touches: seq<Touch>, key: string, now: int)
    requires InTimeOrder(touches) && AllFixed(touches, key)
    requires forall i :: 0 <= i < |touches| ==> touches[i].at <= now
    ensures WindowCell(Lookup(Run(touches), key), now)
  {
    AdmissionInvariant(touches, key, 0, 0, 0);
  }

  lemma {:induction false} OneWindowTouch(touches: seq<Touch>, key: string, limit: nat, a: int)
    requires touches != [] && InTimeOrder(touches) && AllFixed(touches, key)
    requires touches[|touches| - 1].key == key && a <= touches[|touches| - 1].at
    requires var before := touches[..|touches| - 1];
      OneWindow(Lookup(Run(before), key), AdmittedIn(before, key, limit, a, a + WINDOW - 1), limit, a)
    ensures OneWindow(Lookup(Run(touches), key), AdmittedIn(touches, key, limit, a, a + WINDOW - 1), limit, a)
  {
    var before, last := touches[..|touches| - 1], touches[|touches| - 1];
    CellIsWindow(before, key, last.at);
    assert touches == before + [Touch(last.at, key, WINDOW, true)];
    var n, cell := AdmittedIn(before, key, limit, a, a + WINDOW - 1), Lookup(Run(before), key);
    hide *;
    TouchAdds(before, last.at, key, limit, a, a + WINDOW - 1);
    OneWindowStep(cell, n, limit, a, last.at);
  }

  lemma {:induction false} OneWindowAdmits(before: seq<Touch>, more: seq<Touch>, key: string, limit: nat, a: int)
    requires InTimeOrder(before + more) && AllFixed(before + more, key)
    requires forall i :: 0 <= i < |before| ==> before[i].at < a
    requires forall i :: 0 <= i < |more| ==> a <= more[i].at
    requires Settled(Run(before), key, limit, a)
    ensures OneWindow(Lookup(Run(before + more), key),
                      AdmittedIn(before + more, key, limit, a, a + WINDOW - 1), limit, a)
  {
    var all := before + more;
    if more == [] {
      assert all == before;
      NoneEarlier(before, key, limit, a, a + WINDOW - 1);
      CellIsWindow(before, key, a);
    } else {
      var fewer, last := more[..|more| - 1], more[|more| - 1];
      assert all[..|all| - 1] == before + fewer && all[|all| - 1] == last;
      OneWindowAdmits(before, fewer, key, limit, a);
      if last.key == key {
        hide OneWindow, Settled, AdmittedIn, RunFrom, Run;
        OneWindowTouch(all, key, limit, a);
      } else {
        TouchIsLocal(Run(before + fewer), Run(before + fewer), last, key);
        hide OneWindow, Settled;
      }
    }
  }

  /** In a settled bucket the window from `a` admits no more than the limit. */
  lemma {:induction false} SettledKeepsLimit(before: seq<Touch>, more: seq<Touch>, key: string, limit: nat, a: int)
    requires InTimeOrder(before + more) && AllFixed(before + more, key)
    requires forall i :: 0 <= i < |before| ==> before[i].at < a
    requires forall i :: 0 <= i < |more| ==> a <= more[i].at
    requires Settled(Run(before), key, limit, a)
    ensures AdmittedIn(before + more, key, limit, a, a + WINDOW - 1) <= limit
  {
    OneWindowAdmits(before, more, key, limit, a);
  }

  /** One touch at `a`, then a whole limit of them at `d`. */
  function Breaker(key: string, limit: nat, a: int, d: int): seq<Touch> {
    Same(key, a, 1) + Same(key, d, limit)
  }

  function BreakerCell(c: nat, d: int, n: nat): Cell {
    if n <= 1 then Cell(c + n, Some(d)) else Cell(n - 1, Some(d + WINDOW))
  }

  /** The bucket is not settled at `a`: a window stands open until `d` and has room. */
  ghost predicate HasRoom(before: seq<Touch>, key: string, limit: nat, a: int, d: int) {
    && InTimeOrder(before) && AllFixed(before, key) && (forall i :: 0 <= i < |before| ==> before[i].at < a)
    && a < d < a + WINDOW && Lookup(Run(before), key).Some?
    && Lookup(Run(before), key).value.deadline == Some(d) && 1 <= Lookup(Run(before), key).value.count < limit
  }

  /** An unsettled bucket has room in a window that ends before `a + WINDOW`. */
  lemma {:induction false} UnsettledHasRoom(before: seq<Touch>, key: string, limit: nat, a: int) returns (d: int)
    requires InTimeOrder(before) && AllFixed(before, key) && forall i :: 0 <= i < |before| ==> before[i].at < a
    requires !Settled(Run(before), key, limit, a)
    ensures HasRoom(before, key, limit, a, d)
  {
    CellIsWindow(before, key, a - 1);
    d := Run(before)[key].deadline.value;
  }

  lemma {:induction false} BreakerStep(c: nat, limit: nat, a: int, d: int, n: nat)
    requires 1 <= c < limit && a < d < a + WINDOW && n <= limit
    ensures var t, cell := if n == 0 then a else d, BreakerCell(c, d, n);
      WindowCell(Some(cell), t) && BreakerCell(c, d, n + 1) == NextCell(Some(cell), t < cell.deadline.value, t)
      && BreakerCell(c, d, n + 1).count <= limit
  {
  }

  lemma {:induction false} BreakerOneMore(before: seq<Touch>, key: string, limit: nat, a: int, d: int, n: nat)
    requires n <= limit
    ensures before + Breaker(key, limit, a, d)[..n + 1]
         == before + Breaker(key, limit, a, d)[..n] + [Touch(if n == 0 then a else d, key, WINDOW, true)]
    ensures before + Breaker(key, limit, a, d)[..0] == before
  {
  }

  lemma {:induction false} RoomIs(before: seq<Touch>, key: string, limit: nat, a: int, d: int)
    requires HasRoom(before, key, limit, a, d)
    ensures a < d <= a + WINDOW - 1 && Lookup(Run(before), key).Some?
    ensures 1 <= Lookup(Run(before), key).value.count < limit
  {
    hide Run, InTimeOrder, AllFixed;
  }

  lemma {:induction false} BreakerAdmits(before: seq<Touch>, key: string, limit: nat, a: int, d: int, n: nat)
    requires HasRoom(before, key, limit, a, d) && n <= limit + 1
    ensures var touches := before + Breaker(key, limit, a, d)[..n];
      && AdmittedIn(touches, key, limit, a, a + WINDOW - 1) == n
      && Lookup(Run(touches), key) == Some(BreakerCell(Lookup(Run(before), key).value.count, d, n))
  {
    if n == 0 {
      BreakerOneMore(before, key, limit, a, d, 0);
      NoneEarlier(before, key, limit, a, a + WINDOW - 1);
    } else {
      hide *;
      RoomIs(before, key, limit, a, d);
      var c, t := Lookup(Run(before), key).value.count, if n == 1 then a else d;
      BreakerAdmits(before, key, limit, a, d, n - 1);
      BreakerOneMore(before, key, limit, a, d, n - 1);
      BreakerStep(c, limit, a, d, n - 1);
      TouchAdds(before + Breaker(key, limit, a, d)[..n - 1], t, key, limit, a, a + WINDOW - 1);
    }
  }

  /** A bucket with room lets one touch more than the limit through in the window from `a`. */
  lemma {:induction false} BreakerBreaks(before: seq<Touch>, key: string, limit: nat, a: int, d: int)
    requires HasRoom(before, key, limit, a, d)
    ensures AdmittedIn(before + Breaker(key, limit, a, d), key, limit, a, a + WINDOW - 1) == limit + 1
  {
    BreakerAdmits(before, key, limit, a, d, limit + 1);
    hide HasRoom, AdmittedIn;
    assert Breaker(key, limit, a, d)[..limit + 1] == Breaker(key, limit, a, d);
  }
}
