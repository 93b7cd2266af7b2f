/**
 The Redis counters: INCR and EXPIRE on keys with a deadline, times in milliseconds.
 A key with a deadline exists strictly before it. A touch is one INCR followed by an EXPIRE,
 either always or only when the INCR created the key.
 */
module TtlStore {
  import opened Common

  const SECOND := 1000

  datatype Cell = Cell(count: nat, deadline: Option<int>)

  type Store = map<string, Cell>

  predicate Live(store: Store, key: string, now: int) {
    key in store && (store[key].deadline.Some? ==> now < store[key].deadline.value)
  }

  function Count(store: Store, key: string, now: int): nat {
    if Live(store, key, now) then store[key].count else 0
  }

  function Incremented(store: Store, key: string, now: int): Store {
    store[key := if Live(store, key, now) then store[key].(count := store[key].count + 1) else Cell(1, None)]
  }

  function Expiring(store: Store, key: string, ttl: int, now: int): Store {
    if Live(store, key, now) then store[key := store[key].(deadline := Some(now + ttl))] else store
  }

  class Redis {
    var store: Store

    constructor ()
      ensures store == map[]
    {
      store := map[];
    }

    method Incr(key: string, now: int) returns (n: nat)
      modifies this
      ensures store == Incremented(old(store), key, now) && n == Count(old(store), key, now) + 1
    {
      n := Count(store, key, now) + 1;
      var deadline := if Live(store, key, now) then store[key].deadline else None;
      store := store[key := Cell(n, deadline)];
    }

    method Expire(key: string, ttl: int, now: int)
      modifies this
      ensures store == Expiring(old(store), key, ttl, now)
    {
      if Live(store, key, now) {
        store := store[key := Cell(store[key].count, Some(now + ttl))];
      }
    }

    /** Zero when the key is absent or past its deadline, otherwise what the latest INCR returned. */
    method Get(key: string, now: int) returns (n: nat)
      ensures key !in store ==> n == 0
      ensures key in store && store[key].deadline.None? ==> n == store[key].count
      ensures key in store && store[key].deadline.Some? ==>
        n == if now < store[key].deadline.value then store[key].count else 0
    {
      n := 0;
      if key in store {
        var cell := store[key];
        if cell.deadline.None? || cell.deadline.value > now {
          n := cell.count;
        }
      }
    }
  }

  datatype Touch = Touch(at: int, key: string, ttl: int, onFirst: bool)

  function Touched(store: Store, t: Touch): Store {
    var s := Incremented(store, t.key, t.at);
    if t.onFirst && s[t.key].count != 1 then s else Expiring(s, t.key, t.ttl, t.at)
  }

  function RunFrom(store: Store, touches: seq<Touch>): Store {
    if touches == [] then store else Touched(RunFrom(store, touches[..|touches| - 1]), touches[|touches| - 1])
  }

  function Run(touches: seq<Touch>): Store { RunFrom(map[], touches) }

  lemma {:induction false} RunConcat(store: Store, a: seq<Touch>, b: seq<Touch>)
    ensures RunFrom(store, a + b) == RunFrom(RunFrom(store, a), b)
  {
    hide Touched;
    if b == [] {
      assert a + b == a;
    } else {
      RunConcat(store, a, b[..|b| - 1]);
      assert (a + b)[..|a + b| - 1] == a + b[..|b| - 1];
    }
  }

  /** The counter value the i-th touch got back from its INCR. */
  function Reading(touches: seq<Touch>, i: nat): nat
    requires i < |touches|
  {
    Count(Run(touches[..i]), touches[i].key, touches[i].at) + 1
  }

  /** The touches of one key. */
  function Only(touches: seq<Touch>, key: string): seq<Touch> {
    if touches == [] then []
    else
      var last := touches[|touches| - 1];
      Only(touches[..|touches| - 1], key) + (if last.key == key then [last] else [])
  }

  function Lookup(store: Store, key: string): Option<Cell> {
    if key in store then Some(store[key]) else None
  }

  lemma {:induction false} TouchIsLocal(a: Store, b: Store, t: Touch, key: string)
    ensures t.key != key ==> Lookup(Touched(a, t), key) == Lookup(a, key)
    ensures Lookup(a, t.key) == Lookup(b, t.key) ==> Lookup(Touched(a, t), t.key) == Lookup(Touched(b, t), t.key)
  {
  }

  /** After a touch that pushes the deadline out, its key reads one more, and nothing once the deadline has come. */
  lemma {:induction false} PushedOutReads(store: Store, t: Touch, now: int)
    requires !t.onFirst
    ensures Count(Touched(store, t), t.key, now) == if now < t.at + t.ttl then Count(store, t.key, t.at) + 1 else 0
  {
  }

  lemma {:induction false} OthersRead(store: Store, t: Touch, key: string, now: int)
    requires t.key != key
    ensures Count(Touched(store, t), key, now) == Count(store, key, now)
  {
  }

  lemma {:induction false} OnlySeesItsKey(touches: seq<Touch>, key: string)
    ensures Lookup(Run(touches), key) == Lookup(Run(Only(touches, key)), key)
  {
    if touches == [] {
    } else {
      var before, last := touches[..|touches| - 1], touches[|touches| - 1];
      var alone := Only(before, key);
      OnlySeesItsKey(before, key);
      TouchIsLocal(Run(before), Run(alone), last, key);
      if last.key == key {
        var next := alone + [last];
        assert Only(touches, key) == next && next[..|next| - 1] == alone;
        assert Run(next) == Touched(Run(alone), last);
      } else {
        assert Only(touches, key) == alone;
      }
    }
  }

  /** Whatever other keys do, each touch reads what it would read with its key alone in the store. */
  lemma {:induction false} ReadingAlone(touches: seq<Touch>, i: nat)
    requires i < |touches|
    ensures var k := touches[i].key; var alone := Only(touches[..i + 1], k);
      alone != [] && alone[|alone| - 1] == touches[i] && Reading(touches, i) == Reading(alone, |alone| - 1)
  {
    var k := touches[i].key;
    var alone := Only(touches[..i + 1], k);
    assert touches[..i + 1][..i] == touches[..i];
    assert alone[..|alone| - 1] == Only(touches[..i], k);
    OnlySeesItsKey(touches[..i], k);
  }

  ghost predicate InTimeOrder(touches: seq<Touch>) {
    forall i, j :: 0 <= i < j < |touches| ==> touches[i].at <= touches[j].at
  }
}
