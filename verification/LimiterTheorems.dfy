/** What holds over every run for the limited requests. */
module LimiterTheorems {
  import opened Common
  import opened Schema
  import opened TtlStore
  import opened FixedWindow
  import opened RateLimiter
  import opened Traffic

  // ---- The rate limiter over mixed traffic ----

  /** Whether the limiter lets the i-th event through. */
  predicate Admitted(env: Env, seeds: seq<FraudRule>, run: seq<Event>, i: nat)
    requires i < |run| && run[i].Hit?
  {
    var e := run[i];
    Count(SysAfter(env, seeds, run[..i]).store, Bucket(e.request), e.at) + 1 <= LimitFor(env.limits, e.request)
  }

  /** How many requests of a bucket are let through in [a, b]. */
  function AdmittedRequests(env: Env, seeds: seq<FraudRule>, run: seq<Event>, bucket: string, a: int, b: int): nat {
    if run == [] then 0
    else
      var last := run[|run| - 1];
      AdmittedRequests(env, seeds, run[..|run| - 1], bucket, a, b)
      + (if last.Hit? && Bucket(last.request) == bucket && a <= last.at <= b && Admitted(env, seeds, run, |run| - 1)
         then 1 else 0)
  }

  lemma {:induction false} ForeignTouches(ts: seq<Touch>, more: seq<Touch>, key: string, limit: nat, a: int, b: int)
    requires forall i :: 0 <= i < |more| ==> more[i].key != key
    ensures AdmittedIn(ts + more, key, limit, a, b) == AdmittedIn(ts, key, limit, a, b)
  {
    if more == [] {
      assert ts + more == ts;
    } else {
      assert (ts + more)[..|ts + more| - 1] == ts + more[..|more| - 1];
      ForeignTouches(ts, more[..|more| - 1], key, limit, a, b);
    }
  }

  lemma {:induction false} SameBucketSameLimit(limits: Limits, r: HttpRequest, s: HttpRequest)
    ensures Bucket(r) == Bucket(s) ==> LimitFor(limits, r) == LimitFor(limits, s)
  {
    BucketsShared(r, s);
    hide Bucket;
  }

  lemma {:induction false} AdmittedAreTouches(env: Env, seeds: seq<FraudRule>, run: seq<Event>, r: HttpRequest,
                                              a: int, b: int)
    ensures AdmittedRequests(env, seeds, run, Bucket(r), a, b)
         == AdmittedIn(Flatten(run), Bucket(r), LimitFor(env.limits, r), a, b)
  {
    if run == [] {
    } else {
      var before, last := run[..|run| - 1], run[|run| - 1];
      AdmittedAreTouches(env, seeds, before, r, a, b);
      var ts := Flatten(before);
      if last.Hit? {
        StoreIsRun(env, seeds, before);
        SameBucketSameLimit(env.limits, last.request, r);
        assert Flatten(run)[..|ts|] == ts && |Flatten(run)| == |ts| + 1;
      } else {
        TouchShapes(last, r, "", "");
        ForeignTouches(ts, TouchesOf(last), Bucket(r), LimitFor(env.limits, r), a, b);
      }
    }
  }

  /**
   In any time-ordered traffic, over any closed interval of at most the given number of minutes,
   a bucket gets at most its limit once more than that number of times: twice the limit in a minute.
   */
  lemma {:induction false} LimiterBound(env: Env, seeds: seq<FraudRule>, run: seq<Event>, r: HttpRequest, a: int,
                                        b: int, minutes: nat)
    requires InOrder(run) && a <= b <= a + minutes * (60 * SECOND)
    ensures r.apiKey.Some? && r.apiKey.value != "" ==>
      AdmittedRequests(env, seeds, run, Bucket(r), a, b) <= env.limits.perMinute * (minutes + 1)
    ensures r.apiKey == None || r.apiKey == Some("") ==>
      AdmittedRequests(env, seeds, run, Bucket(r), a, b) <= env.limits.burst * (minutes + 1)
  {
    assert b <= a + minutes * WINDOW;
    hide *;
    LimitsByKind(env.limits, r);
    AdmittedAreTouches(env, seeds, run, r, a, b);
    FlattenInOrder(run);
    FlattenShapes(run, r, "", "");
    AdmissionsWithin(Flatten(run), Bucket(r), LimitFor(env.limits, r), a, b, minutes);
  }

  /** `k` requests of one client at one moment. */
  function Hits(r: HttpRequest, t: int, k: nat): seq<Event> {
    seq(k, i => Hit(t, r))
  }

  lemma {:induction false} EmptyFlatten()
    ensures Flatten([]) == []
  {
  }

  lemma {:induction false} FlattenOneMore(run: seq<Event>, e: Event)
    ensures Flatten(run + [e]) == Flatten(run) + TouchesOf(e)
  {
    assert (run + [e])[..|run|] == run;
  }

  lemma {:induction false} FlattenConcat(a: seq<Event>, b: seq<Event>)
    ensures Flatten(a + b) == Flatten(a) + Flatten(b)
  {
    hide *;
    if b == [] {
      assert a + b == a;
      EmptyFlatten();
    } else {
      var init, last := b[..|b| - 1], b[|b| - 1];
      assert b == init + [last] && a + b == (a + init) + [last];
      FlattenConcat(a, init);
      FlattenOneMore(init, last);
      FlattenOneMore(a + init, last);
    }
  }

  lemma {:induction false} HitsFlatten(r: HttpRequest, t: int, k: nat)
    ensures Flatten(Hits(r, t, k)) == Same(Bucket(r), t, k)
  {
    if k == 0 {
    } else {
      HitsFlatten(r, t, k - 1);
      assert Hits(r, t, k)[..k - 1] == Hits(r, t, k - 1);
      assert Same(Bucket(r), t, k) == Same(Bucket(r), t, k - 1) + [LimiterTouch(r, t)];
    }
  }

  /** A whole limit of requests at the start of each of `n` minutes. */
  function BurstRun(r: HttpRequest, limit: nat, n: nat): seq<Event> {
    if n == 0 then [] else BurstRun(r, limit, n - 1) + Hits(r, (n - 1) * WINDOW, limit)
  }

  lemma {:induction false} BurstRunFlattens(r: HttpRequest, limit: nat, n: nat)
    ensures Flatten(BurstRun(r, limit, n)) == Bursts(Bucket(r), limit, n)
  {
    if n == 0 {
    } else {
      BurstRunFlattens(r, limit, n - 1);
      HitsFlatten(r, (n - 1) * WINDOW, limit);
      FlattenConcat(BurstRun(r, limit, n - 1), Hits(r, (n - 1) * WINDOW, limit));
    }
  }

  lemma {:induction false} BurstRunInOrder(r: HttpRequest, limit: nat, n: nat)
    ensures InOrder(BurstRun(r, limit, n))
    ensures forall m :: 0 <= m < |BurstRun(r, limit, n)| ==>
      BurstRun(r, limit, n)[m].Hit? && BurstRun(r, limit, n)[m].at <= (n - 1) * WINDOW
  {
    if n == 0 {
    } else {
      BurstRunInOrder(r, limit, n - 1);
    }
  }

  /** The bound is reached for every number of minutes: in the closed minute from 0 twice the limit gets through. */
  lemma {:induction false} LimiterBoundIsReached(env: Env, seeds: seq<FraudRule>, r: HttpRequest, minutes: nat)
    ensures var limit := LimitFor(env.limits, r); var run := BurstRun(r, limit, minutes + 1);
      && InOrder(run)
      && AdmittedRequests(env, seeds, run, Bucket(r), 0, minutes * (60 * SECOND)) == limit * (minutes + 1)
  {
    var limit := LimitFor(env.limits, r);
    assert minutes * WINDOW == minutes * (60 * SECOND);
    hide *;
    BurstRunInOrder(r, limit, minutes + 1);
    BurstRunFlattens(r, limit, minutes + 1);
    AdmittedAreTouches(env, seeds, BurstRun(r, limit, minutes + 1), r, 0, minutes * WINDOW);
    BurstsReachBound(Bucket(r), limit, minutes);
  }

  // ---- When the limit does hold for a whole minute ----

  /** Later traffic: in time order after `before`, and not before `a`. */
  ghost predicate Follows(before: seq<Event>, more: seq<Event>, a: int) {
    InOrder(before + more) && forall m :: 0 <= m < |more| && !more[m].ChangeRules? ==> a <= more[m].at
  }

  ghost predicate AllBefore(run: seq<Event>, a: int) {
    forall m :: 0 <= m < |run| && !run[m].ChangeRules? ==> run[m].at < a
  }

  lemma {:induction false} FlattenNotBefore(run: seq<Event>, a: int)
    requires forall m :: 0 <= m < |run| && !run[m].ChangeRules? ==> a <= run[m].at
    ensures forall i :: 0 <= i < |Flatten(run)| ==> a <= Flatten(run)[i].at
  {
    if run == [] {
    } else {
      FlattenNotBefore(run[..|run| - 1], a);
    }
  }

  lemma {:induction false} FlattenFollows(before: seq<Event>, more: seq<Event>, r: HttpRequest, a: int)
    requires AllBefore(before, a) && Follows(before, more, a)
    ensures Flatten(before + more) == Flatten(before) + Flatten(more)
    ensures InTimeOrder(Flatten(before) + Flatten(more)) && AllFixed(Flatten(before) + Flatten(more), Bucket(r))
    ensures forall i :: 0 <= i < |Flatten(before)| ==> Flatten(before)[i].at < a
    ensures forall i :: 0 <= i < |Flatten(more)| ==> a <= Flatten(more)[i].at
  {
    FlattenConcat(before, more);
    FlattenInOrder(before + more);
    FlattenShapes(before + more, r, "", "");
    FlattenBounded(before, a - 1);
    FlattenNotBefore(more, a);
  }

  /** One request at `a`, then a whole limit of them at `d`. */
  function BreakingRun(r: HttpRequest, limit: nat, a: int, d: int): seq<Event> {
    Hits(r, a, 1) + Hits(r, d, limit)
  }

  lemma {:induction false} BreakingRunFollows(before: seq<Event>, r: HttpRequest, limit: nat, a: int, d: int)
    requires InOrder(before) && AllBefore(before, a) && a < d
    ensures Follows(before, BreakingRun(r, limit, a, d), a)
    ensures Flatten(BreakingRun(r, limit, a, d)) == Breaker(Bucket(r), limit, a, d)
  {
    HitsFlatten(r, a, 1);
    HitsFlatten(r, d, limit);
    FlattenConcat(Hits(r, a, 1), Hits(r, d, limit));
    hide Flatten, Bucket, Same;
  }

  /** Requests of the bucket let through in the minute from `a`. */
  function NextMinute(env: Env, seeds: seq<FraudRule>, before: seq<Event>, more: seq<Event>, r: HttpRequest,
                      a: int): nat {
    AdmittedRequests(env, seeds, before + more, Bucket(r), a, a + 60 * SECOND - 1)
  }

  lemma {:induction false} SettledMinute(env: Env, seeds: seq<FraudRule>, before: seq<Event>, more: seq<Event>,
                                         r: HttpRequest, a: int)
    requires AllBefore(before, a) && Follows(before, more, a)
    requires Settled(SysAfter(env, seeds, before).store, Bucket(r), LimitFor(env.limits, r), a)
    ensures NextMinute(env, seeds, before, more, r, a) <= LimitFor(env.limits, r)
  {
    hide *;
    StoreIsRun(env, seeds, before);
    MinuteIs(env, seeds, before, more, r, a);
    FlattenFollows(before, more, r, a);
    AdmittedAreTouches(env, seeds, before + more, r, a, a + WINDOW - 1);
    SettledKeepsLimit(Flatten(before), Flatten(more), Bucket(r), LimitFor(env.limits, r), a);
  }

  lemma {:induction false} RoomAt(env: Env, seeds: seq<FraudRule>, before: seq<Event>, r: HttpRequest, a: int)
    returns (d: int)
    requires InOrder(before) && AllBefore(before, a)
    requires !Settled(SysAfter(env, seeds, before).store, Bucket(r), LimitFor(env.limits, r), a)
    ensures HasRoom(Flatten(before), Bucket(r), LimitFor(env.limits, r), a, d) && a < d
  {
    assert forall m :: 0 <= m < |before| && !before[m].ChangeRules? ==> before[m].at <= a - 1;
    hide *;
    StoreIsRun(env, seeds, before);
    FlattenInOrder(before);
    FlattenShapes(before, r, "", "");
    FlattenBounded(before, a - 1);
    d := UnsettledHasRoom(Flatten(before), Bucket(r), LimitFor(env.limits, r), a);
    RoomEndsLater(Flatten(before), Bucket(r), LimitFor(env.limits, r), a, d);
  }

  lemma {:induction false} RoomEndsLater(touches: seq<Touch>, key: string, limit: nat, a: int, d: int)
    requires HasRoom(touches, key, limit, a, d)
    ensures a < d
  {
  }

  lemma {:induction false} UnsettledMinute(env: Env, seeds: seq<FraudRule>, before: seq<Event>, r: HttpRequest, a: int)
    returns (more: seq<Event>)
    requires InOrder(before) && AllBefore(before, a)
    requires !Settled(SysAfter(env, seeds, before).store, Bucket(r), LimitFor(env.limits, r), a)
    ensures Follows(before, more, a) && NextMinute(env, seeds, before, more, r, a) == LimitFor(env.limits, r) + 1
  {
    hide *;
    var limit := LimitFor(env.limits, r);
    var d := RoomAt(env, seeds, before, r, a);
    more := BreakingRun(r, limit, a, d);
    BreakingRunFollows(before, r, limit, a, d);
    FlattenConcat(before, more);
    AdmittedAreTouches(env, seeds, before + more, r, a, a + WINDOW - 1);
    BreakerBreaks(Flatten(before), Bucket(r), limit, a, d);
    MinuteIs(env, seeds, before, more, r, a);
  }

  lemma {:induction false} MinuteIs(env: Env, seeds: seq<FraudRule>, before: seq<Event>, more: seq<Event>,
                                    r: HttpRequest, a: int)
    ensures NextMinute(env, seeds, before, more, r, a)
         == AdmittedRequests(env, seeds, before + more, Bucket(r), a, a + WINDOW - 1)
  {
  }

  /**
   The limit holds for the minute from `a`, whatever traffic follows, exactly when at `a` the
   bucket's window is over or used up; otherwise some traffic gets one more request through.
   */
  lemma {:induction false} MinuteKeepsLimitIff(env: Env, seeds: seq<FraudRule>, before: seq<Event>, r: HttpRequest,
                                               a: int)
    requires InOrder(before) && AllBefore(before, a)
    ensures var store := SysAfter(env, seeds, before).store;
      (forall more :: Follows(before, more, a) ==>
         NextMinute(env, seeds, before, more, r, a) <= LimitFor(env.limits, r))
      <==> !Live(store, Bucket(r), a) || Count(store, Bucket(r), a) >= LimitFor(env.limits, r)
  {
    var settled := Settled(SysAfter(env, seeds, before).store, Bucket(r), LimitFor(env.limits, r), a);
    hide SysAfter, Bucket, LimitFor, NextMinute, Live, Count, InOrder, AllBefore, Follows;
    if settled {
      forall more | Follows(before, more, a)
        ensures NextMinute(env, seeds, before, more, r, a) <= LimitFor(env.limits, r)
      {
        SettledMinute(env, seeds, before, more, r, a);
      }
    } else {
      var more := UnsettledMinute(env, seeds, before, r, a);
    }
  }

  // ---- A client that was turned away ----

  lemma {:induction false} ForeignRun(store: Store, more: seq<Touch>, key: string)
    requires forall i :: 0 <= i < |more| ==> more[i].key != key
    ensures TtlStore.Lookup(RunFrom(store, more), key) == TtlStore.Lookup(store, key)
  {
    if more == [] {
    } else {
      ForeignRun(store, more[..|more| - 1], key);
      TouchIsLocal(RunFrom(store, more[..|more| - 1]), store, more[|more| - 1], key);
    }
  }

  /** The event's effect on one bucket's cell. */
  lemma {:induction false} BucketStep(env: Env, sys: Sys, e: Event, r: HttpRequest)
    ensures !(e.Hit? && Bucket(e.request) == Bucket(r)) ==>
      TtlStore.Lookup(Next(env, sys, e).store, Bucket(r)) == TtlStore.Lookup(sys.store, Bucket(r))
    ensures e.Hit? && Bucket(e.request) == Bucket(r) ==>
      Next(env, sys, e).store == Touched(sys.store, Touch(e.at, Bucket(r), WINDOW, true))
  {
    if e.Hit? {
      TouchIsLocal(sys.store, sys.store, LimiterTouch(e.request, e.at), Bucket(r));
    } else if e.Submit? {
      TouchShapes(e, r, "", "");
      ForeignRun(sys.store, TouchesOf(e), Bucket(r));
    }
  }

  ghost predicate HitsBefore(run: seq<Event>, from: nat, to: nat, bucket: string, t: int)
    requires to <= |run|
  {
    forall m :: from < m < to && run[m].Hit? && Bucket(run[m].request) == bucket ==> run[m].at < t
  }

  /** The bucket's window is closed when its next request comes. */
  ghost predicate Opens(env: Env, seeds: seq<FraudRule>, run: seq<Event>, w: nat)
    requires w < |run|
  {
    run[w].Hit? && !Live(SysAfter(env, seeds, run[..w]).store, Bucket(run[w].request), run[w].at)
  }

  /** The requests of the bucket among events `w` to `n - 1`. */
  function HitCount(run: seq<Event>, bucket: string, w: nat, n: nat): nat
    requires n <= |run|
  {
    if n <= w then 0
    else HitCount(run, bucket, w, n - 1) + (if run[n - 1].Hit? && Bucket(run[n - 1].request) == bucket then 1 else 0)
  }

  /** The cell of a window opened at `t` in which `k` requests were counted. */
  predicate OpenedAt(cell: Option<Cell>, t: int, k: nat) {
    cell == Some(Cell(k, Some(t + WINDOW)))
  }

  lemma {:induction false} TouchCounts(store: Store, key: string, at: int, t: int, k: nat)
    requires if Live(store, key, at) then OpenedAt(TtlStore.Lookup(store, key), t, k) && k >= 1 else at == t && k == 0
    ensures OpenedAt(TtlStore.Lookup(Touched(store, Touch(at, key, WINDOW, true)), key), t, k + 1)
  {
  }

  /** Until its deadline a window keeps the deadline its first request set and counts every request. */
  lemma {:induction false} WindowCounts(env: Env, seeds: seq<FraudRule>, run: seq<Event>, w: nat, n: nat)
    requires w < n <= |run| && Opens(env, seeds, run, w)
    requires HitsBefore(run, w, n, Bucket(run[w].request), run[w].at + WINDOW)
    ensures var bucket := Bucket(run[w].request);
      && HitCount(run, bucket, w, n) >= 1
      && OpenedAt(TtlStore.Lookup(SysAfter(env, seeds, run[..n]).store, bucket), run[w].at, HitCount(run, bucket, w, n))
  {
    hide *;
    OpensDead(env, seeds, run, w);
    SysNext(env, seeds, run, n - 1);
    var bucket := Bucket(run[w].request);
    CountNext(run, bucket, w, n);
    if n - 1 > w {
      StillBefore(run, w, n, bucket, run[w].at + WINDOW);
      WindowCounts(env, seeds, run, w, n - 1);
    }
    WindowStep(env, SysAfter(env, seeds, run[..n - 1]), run[n - 1], run[w].request, run[w].at,
               HitCount(run, bucket, w, n - 1));
  }

  lemma {:induction false} CountNext(run: seq<Event>, bucket: string, w: nat, n: nat)
    requires w < n <= |run|
    ensures HitCount(run, bucket, w, n) == HitCount(run, bucket, w, n - 1)
      + (if run[n - 1].Hit? && Bucket(run[n - 1].request) == bucket then 1 else 0)
    ensures n == w + 1 ==> HitCount(run, bucket, w, n - 1) == 0
  {
    hide Bucket;
  }

  /** An event keeps an open window's deadline, or opens one. */
  lemma {:induction false} WindowStep(env: Env, sys: Sys, e: Event, r: HttpRequest, t: int, k: nat)
    requires var hit := e.Hit? && Bucket(e.request) == Bucket(r);
      || (k >= 1 && OpenedAt(TtlStore.Lookup(sys.store, Bucket(r)), t, k) && (hit ==> e.at < t + WINDOW))
      || (k == 0 && hit && !Live(sys.store, Bucket(r), e.at) && e.at == t)
    ensures OpenedAt(TtlStore.Lookup(Next(env, sys, e).store, Bucket(r)), t,
                     if e.Hit? && Bucket(e.request) == Bucket(r) then k + 1 else k)
  {
    hide *;
    BucketStep(env, sys, e, r);
    if e.Hit? && Bucket(e.request) == Bucket(r) {
      if k >= 1 {
        OpenedIsLive(sys.store, Bucket(r), t, k, e.at);
      }
      TouchCounts(sys.store, Bucket(r), e.at, t, k);
    }
  }

  lemma {:induction false} SysNext(env: Env, seeds: seq<FraudRule>, run: seq<Event>, k: nat)
    requires k < |run|
    ensures SysAfter(env, seeds, run[..k + 1]) == Next(env, SysAfter(env, seeds, run[..k]), run[k])
  {
    assert run[..k + 1][..k] == run[..k];
    hide Next;
  }

  lemma {:induction false} StillBefore(run: seq<Event>, w: nat, n: nat, bucket: string, t: int)
    requires w < n - 1 < |run| && HitsBefore(run, w, n, bucket, t)
    ensures HitsBefore(run, w, n - 1, bucket, t)
    ensures run[n - 1].Hit? && Bucket(run[n - 1].request) == bucket ==> run[n - 1].at < t
  {
    hide Bucket;
  }

  lemma {:induction false} OpensDead(env: Env, seeds: seq<FraudRule>, run: seq<Event>, w: nat)
    requires w < |run| && Opens(env, seeds, run, w)
    ensures run[w].Hit? && !Live(SysAfter(env, seeds, run[..w]).store, Bucket(run[w].request), run[w].at)
  {
  }

  lemma {:induction false} OpenedIsLive(store: Store, key: string, t: int, k: nat, now: int)
    requires OpenedAt(TtlStore.Lookup(store, key), t, k) && now < t + WINDOW
    ensures Live(store, key, now) && Count(store, key, now) == k
  {
  }

  lemma {:induction false} ClosedAgain(store: Store, key: string, t: int, k: nat, now: int)
    requires OpenedAt(TtlStore.Lookup(store, key), t, k) && t + WINDOW <= now
    ensures Count(store, key, now) == 0
  {
  }

  /** Which of the two configured limits a client has. */
  lemma {:induction false} LimitsByKind(limits: Limits, r: HttpRequest)
    ensures r.apiKey.Some? && r.apiKey.value != "" ==> LimitFor(limits, r) == limits.perMinute
    ensures r.apiKey == None || r.apiKey == Some("") ==> LimitFor(limits, r) == limits.burst
  {
  }

  lemma {:induction false} AdmittedIs(env: Env, seeds: seq<FraudRule>, run: seq<Event>, i: nat)
    requires i < |run| && run[i].Hit?
    ensures Admitted(env, seeds, run, i)
      <==> Count(SysAfter(env, seeds, run[..i]).store, Bucket(run[i].request), run[i].at) + 1
           <= LimitFor(env.limits, run[i].request)
  {
    hide SysAfter, Bucket, LimitFor;
  }

  /**
   The k-th request of a bucket in its open window is let through exactly when k is at most the
   limit per minute, for a client with a key, or at most the burst limit, for one without.
   */
  lemma {:induction false} KthInWindow(env: Env, seeds: seq<FraudRule>, run: seq<Event>, w: nat, i: nat)
    requires w <= i < |run| && Opens(env, seeds, run, w) && run[w].Hit? && run[i].Hit?
    requires Bucket(run[i].request) == Bucket(run[w].request)
    requires HitsBefore(run, w, i + 1, Bucket(run[w].request), run[w].at + 60 * SECOND)
    ensures var k, key := HitCount(run, Bucket(run[w].request), w, i + 1), run[i].request.apiKey;
      Admitted(env, seeds, run, i)
      <==> k <= if key.Some? && key.value != "" then env.limits.perMinute else env.limits.burst
  {
    var bucket := Bucket(run[w].request);
    assert 60 * SECOND == WINDOW;
    hide *;
    LimitsByKind(env.limits, run[i].request);
    AdmittedIs(env, seeds, run, i);
    CountNext(run, bucket, w, i + 1);
    if i == w {
      OpensDead(env, seeds, run, w);
      DeadCounts(SysAfter(env, seeds, run[..w]).store, bucket, run[w].at);
    } else {
      StillBefore(run, w, i + 1, bucket, run[w].at + WINDOW);
      WindowCounts(env, seeds, run, w, i);
      OpenedIsLive(SysAfter(env, seeds, run[..i]).store, bucket, run[w].at, HitCount(run, bucket, w, i), run[i].at);
    }
  }

  lemma {:induction false} DeadCounts(store: Store, key: string, now: int)
    requires !Live(store, key, now)
    ensures Count(store, key, now) == 0
  {
  }

  /** However often a client was turned away in between, it is let through again a minute after its window opened. */
  lemma {:induction false} ClientIsReadmitted(env: Env, seeds: seq<FraudRule>, run: seq<Event>, w: nat, i: nat)
    requires w < i < |run| && Opens(env, seeds, run, w) && run[i].Hit?
    requires Bucket(run[i].request) == Bucket(run[w].request) && run[w].at + 60 * SECOND <= run[i].at
    requires HitsBefore(run, w, i, Bucket(run[w].request), run[w].at + 60 * SECOND)
    requires LimitFor(env.limits, run[i].request) >= 1
    ensures Admitted(env, seeds, run, i)
  {
    var bucket := Bucket(run[w].request);
    assert 60 * SECOND == WINDOW;
    hide *;
    AdmittedIs(env, seeds, run, i);
    WindowCounts(env, seeds, run, w, i);
    ClosedAgain(SysAfter(env, seeds, run[..i]).store, bucket, run[w].at, HitCount(run, bucket, w, i), run[i].at);
  }

  /** The requests of one bucket, alone. */
  function OnlyBucket(run: seq<Event>, bucket: string): seq<Event> {
    if run == [] then []
    else
      var last := run[|run| - 1];
      OnlyBucket(run[..|run| - 1], bucket) + (if last.Hit? && Bucket(last.request) == bucket then [last] else [])
  }

  lemma {:induction false} OnlyBucketTouches(run: seq<Event>, r: HttpRequest)
    ensures Only(Flatten(run), Bucket(r)) == Flatten(OnlyBucket(run, Bucket(r)))
  {
    if run == [] {
    } else {
      var before, last := run[..|run| - 1], run[|run| - 1];
      var alone := OnlyBucket(before, Bucket(r));
      OnlyBucketTouches(before, r);
      var ts := Flatten(before);
      if last.Hit? && Bucket(last.request) == Bucket(r) {
        OnlyOwn(ts, LimiterTouch(last.request, last.at));
        assert (alone + [last])[..|alone|] == alone;
      } else {
        TouchShapes(last, r, "", "");
        assert OnlyBucket(run, Bucket(r)) == alone;
        OnlyForeign(ts, TouchesOf(last), Bucket(r));
      }
    }
  }

  lemma {:induction false} OnlyOwn(ts: seq<Touch>, t: Touch)
    ensures Only(ts + [t], t.key) == Only(ts, t.key) + [t]
  {
    assert (ts + [t])[..|ts|] == ts;
  }

  lemma {:induction false} OnlyForeign(ts: seq<Touch>, more: seq<Touch>, key: string)
    requires forall i :: 0 <= i < |more| ==> more[i].key != key
    ensures Only(ts + more, key) == Only(ts, key)
  {
    if more == [] {
      assert ts + more == ts;
    } else {
      assert (ts + more)[..|ts + more| - 1] == ts + more[..|more| - 1];
      OnlyForeign(ts, more[..|more| - 1], key);
    }
  }

  /** Every request is decided as if only its own bucket had ever been used. */
  lemma {:induction false} BucketsAreIndependent(env: Env, seeds: seq<FraudRule>, run: seq<Event>, i: nat)
    requires i < |run| && run[i].Hit?
    ensures var alone := OnlyBucket(run[..i], Bucket(run[i].request)) + [run[i]];
      Admitted(env, seeds, run, i) <==> Admitted(env, seeds, alone, |alone| - 1)
  {
    var r := run[i].request;
    var others := OnlyBucket(run[..i], Bucket(r));
    var alone := others + [run[i]];
    assert alone[..|alone| - 1] == others;
    StoreIsRun(env, seeds, run[..i]);
    StoreIsRun(env, seeds, others);
    OnlyBucketTouches(run[..i], r);
    OnlySeesItsKey(Flatten(run[..i]), Bucket(r));
  }
}
