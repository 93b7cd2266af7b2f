/** The phone and IP counters of the verification service, whose deadline every touch pushes out. */
module Counters {
  import opened Common
  import opened TtlStore

  const PHONE_PREFIX := "vt:phone:"
  const IP_PREFIX := "vt:ip_velocity:"
  const PHONE_TTL := 86400 * 30 * SECOND
  const IP_TTL := 3600 * SECOND

  function PhoneKey(phone: string): string { PHONE_PREFIX + phone }

  function IpKey(ip: string): string { IP_PREFIX + ip }

  /** `_update_redis_counters` */
  function CounterTouches(phone: Option<string>, ip: Option<string>, now: int): seq<Touch> {
    (if Given(phone) then [Touch(now, PhoneKey(phone.value), PHONE_TTL, false)] else [])
    + (if Given(ip) then [Touch(now, IpKey(ip.value), IP_TTL, false)] else [])
  }

  function PhoneSeen(store: Store, phone: Option<string>, now: int): bool {
    Given(phone) && Count(store, PhoneKey(phone.value), now) > 0
  }

  function IpVelocity(store: Store, ip: Option<string>, now: int): nat {
    if Given(ip) then Count(store, IpKey(ip.value), now) else 0
  }

  // ---- Deadline pushed out by every touch: an idle timeout ----

  ghost predicate AllSliding(touches: seq<Touch>, key: string, ttl: int) {
    forall i :: 0 <= i < |touches| && touches[i].key == key ==> !touches[i].onFirst && touches[i].ttl == ttl
  }

  function TimesOf(touches: seq<Touch>, key: string): seq<int> {
    if touches == [] then []
    else
      var last := touches[|touches| - 1];
      TimesOf(touches[..|touches| - 1], key) + (if last.key == key then [last.at] else [])
  }

  /** How many of the latest times form a chain up to `now` with every gap under `ttl`. */
  function Chain(times: seq<int>, now: int, ttl: int): (n: nat)
    ensures n <= |times|
  {
    if times == [] then 0
    else
      var last := times[|times| - 1];
      if now < last + ttl then Chain(times[..|times| - 1], last, ttl) + 1 else 0
  }

  /** The counter holds the length of the chain. */
  lemma {:induction false} CounterIsChain(touches: seq<Touch>, key: string, ttl: int, now: int)
    requires AllSliding(touches, key, ttl)
    ensures Count(Run(touches), key, now) == Chain(TimesOf(touches, key), now, ttl)
  {
    if touches == [] {
    } else {
      var before, last := touches[..|touches| - 1], touches[|touches| - 1];
      var store := Run(before);
      assert Run(touches) == Touched(store, last);
      hide Touched, Count, Run, RunFrom;
      if last.key == key {
        CounterIsChain(before, key, ttl, last.at);
        PushedOutReads(store, last, now);
        assert TimesOf(touches, key)[..|TimesOf(touches, key)| - 1] == TimesOf(before, key);
      } else {
        CounterIsChain(before, key, ttl, now);
        OthersRead(store, last, key, now);
        assert TimesOf(touches, key) == TimesOf(before, key);
      }
    }
  }

  /** The moment after the i-th time: the next one, or now. */
  function After(times: seq<int>, i: nat, now: int): int
    requires i < |times|
  {
    if i + 1 < |times| then times[i + 1] else now
  }

  /** Position `i` is the first of all, or a full `ttl` passed before the time at `i`. */
  ghost predicate IdleBefore(times: seq<int>, i: nat, now: int, ttl: int)
    requires i <= |times|
  {
    i > 0 ==> After(times, i - 1, now) >= times[i - 1] + ttl
  }

  /** From position `i` up to now every gap is under `ttl`. */
  ghost predicate ShortGapsFrom(times: seq<int>, i: nat, now: int, ttl: int) {
    forall k :: i <= k < |times| ==> After(times, k, now) < times[k] + ttl
  }

  lemma {:induction false} OneMoreGap(times: seq<int>, start: nat, now: int, ttl: int)
    requires times != [] && start < |times|
    requires var before, last := times[..|times| - 1], times[|times| - 1];
      ShortGapsFrom(before, start, last, ttl) && IdleBefore(before, start, last, ttl) && now < last + ttl
    ensures ShortGapsFrom(times, start, now, ttl) && IdleBefore(times, start, now, ttl)
  {
    var before, last := times[..|times| - 1], times[|times| - 1];
    forall i | start <= i < |times| ensures After(times, i, now) < times[i] + ttl {
      if i < |before| {
        assert After(times, i, now) == After(before, i, last) && before[i] == times[i];
      }
    }
    assert start > 0 ==> After(times, start - 1, now) == After(before, start - 1, last);
  }

  /** The chain is maximal: its gaps are all short, and the gap before it, if any, is not. */
  lemma {:induction false} ChainIsMaximal(times: seq<int>, now: int, ttl: int)
    ensures var start := |times| - Chain(times, now, ttl);
      ShortGapsFrom(times, start, now, ttl) && IdleBefore(times, start, now, ttl)
  {
    if times == [] {
    } else {
      var before, last := times[..|times| - 1], times[|times| - 1];
      if now < last + ttl {
        hide ShortGapsFrom, IdleBefore;
        ChainIsMaximal(before, last, ttl);
        OneMoreGap(times, |before| - Chain(before, last, ttl), now, ttl);
      }
    }
  }

  ghost predicate Sorted(times: seq<int>, now: int) {
    (forall i, j :: 0 <= i < j < |times| ==> times[i] <= times[j]) && (forall i :: 0 <= i < |times| ==> times[i] <= now)
  }

  /** The true number of times in the last `ttl`. */
  function Recent(times: seq<int>, now: int, ttl: int): (n: nat)
    ensures n <= |times|
  {
    if times == [] then 0
    else Recent(times[..|times| - 1], now, ttl) + (if now < times[|times| - 1] + ttl then 1 else 0)
  }

  lemma {:induction false} RecentIsSuffix(times: seq<int>, now: int, ttl: int)
    requires Sorted(times, now)
    ensures var start := |times| - Recent(times, now, ttl);
      forall i :: 0 <= i < |times| ==> (now < times[i] + ttl <==> start <= i)
  {
    if times == [] {
    } else {
      var before, last := times[..|times| - 1], times[|times| - 1];
      RecentIsSuffix(before, now, ttl);
      assert forall i :: 0 <= i < |before| ==> before[i] == times[i] && times[i] <= last;
      if now >= last + ttl {
        assert before != [] ==> now >= before[|before| - 1] + ttl;
      }
    }
  }

  /** A chain is no longer than the recent times exactly when a full `ttl` passed before the first of them. */
  lemma {:induction false} ChainStopsAt(times: seq<int>, chain: nat, recent: nat, now: int, ttl: int)
    requires Sorted(times, now) && ttl > 0 && chain <= |times| && recent <= |times|
    requires ShortGapsFrom(times, |times| - chain, now, ttl) && IdleBefore(times, |times| - chain, now, ttl)
    requires forall i :: 0 <= i < |times| ==> (now < times[i] + ttl <==> |times| - recent <= i)
    ensures chain >= recent && (chain == recent <==> IdleBefore(times, |times| - recent, now, ttl))
  {
    if chain < |times| {
      assert now >= times[|times| - chain - 1] + ttl;
    }
    if recent < |times| && chain > recent {
      var i := |times| - recent - 1;
      assert After(times, i, now) < times[i] + ttl;
    }
  }

  /**
   The counter never falls below the true count, and equals it exactly when a full `ttl` passed
   before the first recent time.
   */
  lemma {:induction false} ChainVersusRecent(times: seq<int>, now: int, ttl: int)
    requires Sorted(times, now) && ttl > 0
    ensures var recent := Recent(times, now, ttl); var start := |times| - recent;
      && Chain(times, now, ttl) >= recent
      && (Chain(times, now, ttl) == recent <==> IdleBefore(times, start, now, ttl))
  {
    hide *;
    RecentIsSuffix(times, now, ttl);
    ChainIsMaximal(times, now, ttl);
    ChainStopsAt(times, Chain(times, now, ttl), Recent(times, now, ttl), now, ttl);
  }

  /** A counter is positive exactly when some time lies in the last `ttl`. */
  lemma {:induction false} PositiveIffRecent(times: seq<int>, now: int, ttl: int)
    requires Sorted(times, now) && ttl > 0
    ensures Chain(times, now, ttl) > 0 <==> exists i :: 0 <= i < |times| && now < times[i] + ttl
  {
    if exists i :: 0 <= i < |times| && now < times[i] + ttl {
      var i :| 0 <= i < |times| && now < times[i] + ttl;
      assert times[i] <= times[|times| - 1];
    } else if times != [] {
      assert !(now < times[|times| - 1] + ttl);
    }
  }
}
