/** GROUP BY: distinct keys covering the items, and what sums over the groups amount to. */
module Grouping {

  /** The test for one key, and the test every key passes. */
  function Is<K(==)>(key: K): K -> bool { k => k == key }

  function Any<K>(): K -> bool { k => true }

  function CountIf<K>(items: seq<K>, p: K -> bool): (n: nat)
    ensures n <= |items|
  {
    if items == [] then 0
    else CountIf(items[..|items| - 1], p) + (if p(items[|items| - 1]) then 1 else 0)
  }

  function Occurrences<K(==)>(items: seq<K>, key: K): (n: nat)
    ensures n <= |items|
  {
    if items == [] then 0
    else Occurrences(items[..|items| - 1], key) + (if items[|items| - 1] == key then 1 else 0)
  }

  ghost predicate Distinct<K>(keys: seq<K>) {
    forall i, j :: 0 <= i < j < |keys| ==> keys[i] != keys[j]
  }

  ghost predicate Covers<K>(keys: seq<K>, items: seq<K>) {
    forall i :: 0 <= i < |items| ==> items[i] in keys
  }

  /** The sizes of the groups whose key satisfies `p`, added up. */
  function SumIf<K(==)>(keys: seq<K>, items: seq<K>, p: K -> bool): nat {
    if keys == [] then 0
    else
      var last := keys[|keys| - 1];
      SumIf(keys[..|keys| - 1], items, p) + (if p(last) then Occurrences(items, last) else 0)
  }

  lemma {:induction false} SumIfEmpty<K>(keys: seq<K>, p: K -> bool)
    ensures SumIf(keys, [], p) == 0
  {
    if keys == [] {
    } else {
      SumIfEmpty(keys[..|keys| - 1], p);
    }
  }

  lemma {:induction false} SumIfOneMore<K>(keys: seq<K>, items: seq<K>, p: K -> bool)
    requires items != [] && Distinct(keys)
    ensures var x := items[|items| - 1];
      SumIf(keys, items, p) == SumIf(keys, items[..|items| - 1], p) + (if x in keys && p(x) then 1 else 0)
  {
    if keys == [] {
    } else {
      var x, last := items[|items| - 1], keys[|keys| - 1];
      SumIfOneMore(keys[..|keys| - 1], items, p);
      assert keys == keys[..|keys| - 1] + [last];
      assert x in keys <==> x in keys[..|keys| - 1] || x == last;
    }
  }

  /** With distinct keys covering the items, the groups picked by `p` hold exactly the items picked by `p`. */
  lemma {:induction false} GroupsPartition<K>(keys: seq<K>, items: seq<K>, p: K -> bool)
    requires Distinct(keys) && Covers(keys, items)
    ensures SumIf(keys, items, p) == CountIf(items, p)
  {
    if items == [] {
      SumIfEmpty(keys, p);
    } else {
      GroupsPartition(keys, items[..|items| - 1], p);
      SumIfOneMore(keys, items, p);
    }
  }

  lemma {:induction false} OccurrencesIsCount<K>(items: seq<K>, key: K)
    ensures Occurrences(items, key) == CountIf(items, Is(key))
    ensures Occurrences(items, key) > 0 <==> key in items
  {
    if items == [] {
    } else {
      OccurrencesIsCount(items[..|items| - 1], key);
      assert items == items[..|items| - 1] + [items[|items| - 1]];
    }
  }

  lemma {:induction false} CountAll<K>(items: seq<K>)
    ensures CountIf(items, Any()) == |items|
  {
    if items == [] {
    } else {
      CountAll(items[..|items| - 1]);
    }
  }

  /** The groups add up to all items, and the group of a key holds its occurrences. */
  lemma {:induction false} GroupsAddUp<K(!new)>(keys: seq<K>, items: seq<K>)
    requires Distinct(keys) && Covers(keys, items)
    ensures SumIf(keys, items, Any()) == |items|
    ensures forall key :: SumIf(keys, items, Is(key)) == Occurrences(items, key)
  {
    GroupsPartition(keys, items, Any());
    CountAll(items);
    forall key ensures SumIf(keys, items, Is(key)) == Occurrences(items, key) {
      GroupsPartition(keys, items, Is(key));
      OccurrencesIsCount(items, key);
    }
  }
}
