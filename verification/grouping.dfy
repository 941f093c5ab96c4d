/**
 * The `reduce` into an object keyed by category that DishSelector and
 * EquipmentList both use: groups appear in the order their key is first seen
 * and each group lists its elements in input order.
 */
module Grouping {
  datatype Group<T> = Group(key: string, items: seq<T>)

  /** The keys of a list of groups, in order. */
  function Keys<T>(gs: seq<Group<T>>): (ks: seq<string>)
    ensures |ks| == |gs|
    ensures forall j :: 0 <= j < |gs| ==> ks[j] == gs[j].key
  {
    seq(|gs|, j requires 0 <= j < |gs| => gs[j].key)
  }

  predicate DistinctKeys<T>(gs: seq<Group<T>>) {
    forall i, j :: 0 <= i < j < |gs| ==> gs[i].key != gs[j].key
  }

  /** Reference definition: the elements of `xs` whose key is `k`, in input order. */
  function Filter<T(!new)>(xs: seq<T>, key: T -> string, k: string): (r: seq<T>)
    ensures |r| <= |xs|
    ensures forall x :: x in r <==> x in xs && key(x) == k
    ensures (forall x :: x in xs ==> key(x) != k) ==> r == []
  {
    if |xs| == 0 then []
    else
      var last := xs[|xs| - 1];
      assert xs == xs[..|xs| - 1] + [last];
      Filter(xs[..|xs| - 1], key, k) + (if key(last) == k then [last] else [])
  }

  /** Position of the group with key `k`, or -1. */
  function FindKey<T>(gs: seq<Group<T>>, k: string): (i: int)
    ensures -1 <= i < |gs|
    ensures i == -1 <==> k !in Keys(gs)
    ensures 0 <= i ==> gs[i].key == k
  {
    if |gs| == 0 then -1
    else if gs[|gs| - 1].key == k then |gs| - 1
    else
      var i := FindKey(gs[..|gs| - 1], k);
      assert Keys(gs) == Keys(gs[..|gs| - 1]) + [gs[|gs| - 1].key];
      i
  }

  /** One step of the reduce: push onto the key's group, creating it at the end if absent. */
  function Add<T>(gs: seq<Group<T>>, k: string, x: T): seq<Group<T>> {
    var i := FindKey(gs, k);
    if i < 0 then gs + [Group(k, [x])]
    else gs[i := gs[i].(items := gs[i].items + [x])]
  }

  /** `xs.reduce(...)` grouping by `key`: at most one group per element, and a group whenever there is an element. */
  function GroupBy<T>(xs: seq<T>, key: T -> string): (gs: seq<Group<T>>)
    ensures |gs| <= |xs|
    ensures gs == [] <==> xs == []
  {
    if |xs| == 0 then []
    else Add(GroupBy(xs[..|xs| - 1], key), key(xs[|xs| - 1]), xs[|xs| - 1])
  }

  /** Some element of `xs` has key `k`. */
  ghost predicate HasKey<T(!new)>(xs: seq<T>, key: T -> string, k: string) {
    exists x :: x in xs && key(x) == k
  }

  /** `gs` groups `xs` by `key`: distinct keys, one per key in use, each holding the elements with that key in order. */
  ghost predicate Partitions<T(!new)>(gs: seq<Group<T>>, xs: seq<T>, key: T -> string) {
    && DistinctKeys(gs)
    && (forall k :: k in Keys(gs) <==> HasKey(xs, key, k))
    && (forall j :: 0 <= j < |gs| ==> gs[j].items == Filter(xs, key, gs[j].key))
  }

  lemma FilterSnoc<T(!new)>(p: seq<T>, last: T, key: T -> string, k: string)
    ensures Filter(p + [last], key, k) == Filter(p, key, k) + (if key(last) == k then [last] else [])
  {
    assert (p + [last])[..|p|] == p;
  }

  /** Adding an element whose key has no group yet appends a new group. */
  lemma AddNewKey<T(!new)>(g0: seq<Group<T>>, p: seq<T>, last: T, key: T -> string)
    requires Partitions(g0, p, key)
    requires FindKey(g0, key(last)) < 0
    ensures Partitions(Add(g0, key(last), last), p + [last], key)
  {
    var k := key(last);
    var gs := Add(g0, k, last);
    assert gs == g0 + [Group(k, [last])];
    assert !HasKey(p, key, k);
    assert Filter(p, key, k) == [];
    FilterSnoc(p, last, key, k);
    assert Keys(gs) == Keys(g0) + [k];
    forall k' ensures k' in Keys(gs) <==> HasKey(p + [last], key, k') {
      if HasKey(p + [last], key, k') && k' != k {
        var x :| x in p + [last] && key(x) == k';
        assert x in p;
      }
    }
    forall j | 0 <= j < |gs| ensures gs[j].items == Filter(p + [last], key, gs[j].key) {
      FilterSnoc(p, last, key, gs[j].key);
      if j < |g0| {
        assert gs[j] == g0[j];
        assert g0[j].key in Keys(g0);
      }
    }
  }

  /** Adding an element whose key has a group extends that group only. */
  lemma AddExistingKey<T(!new)>(g0: seq<Group<T>>, p: seq<T>, last: T, key: T -> string)
    requires Partitions(g0, p, key)
    requires FindKey(g0, key(last)) >= 0
    ensures Partitions(Add(g0, key(last), last), p + [last], key)
  {
    var k := key(last);
    var i := FindKey(g0, k);
    var gs := Add(g0, k, last);
    assert Keys(gs) == Keys(g0);
    forall k' ensures k' in Keys(gs) <==> HasKey(p + [last], key, k') {
      if HasKey(p + [last], key, k') && k' != k {
        var x :| x in p + [last] && key(x) == k';
        assert x in p;
      }
      if k' in Keys(gs) {
        assert HasKey(p, key, k');
        var x :| x in p && key(x) == k';
        assert x in p + [last];
      }
    }
    forall j | 0 <= j < |gs| ensures gs[j].items == Filter(p + [last], key, gs[j].key) {
      FilterSnoc(p, last, key, gs[j].key);
    }
  }

  /**
   * The grouping is a partition by key: keys are distinct, a key has a group
   * iff some element has it, and each group's items are exactly the elements
   * with its key, in input order.
   */
  lemma {:induction false} GroupByIsFilter<T(!new)>(xs: seq<T>, key: T -> string)
    ensures var gs := GroupBy(xs, key);
      && DistinctKeys(gs)
      && (forall k :: k in Keys(gs) <==> exists x :: x in xs && key(x) == k)
      && (forall j :: 0 <= j < |gs| ==> gs[j].items == Filter(xs, key, gs[j].key))
  {
    GroupByPartitions(xs, key);
  }

  lemma {:induction false} GroupByPartitions<T(!new)>(xs: seq<T>, key: T -> string)
    ensures Partitions(GroupBy(xs, key), xs, key)
  {
    if |xs| > 0 {
      var p := xs[..|xs| - 1];
      var last := xs[|xs| - 1];
      assert xs == p + [last];
      GroupByPartitions(p, key);
      if FindKey(GroupBy(p, key), key(last)) < 0 {
        AddNewKey(GroupBy(p, key), p, last, key);
      } else {
        AddExistingKey(GroupBy(p, key), p, last, key);
      }
    }
  }

  /** Every element lies in exactly one group: the one with its own key. */
  lemma EachElementInOneGroup<T(!new)>(xs: seq<T>, key: T -> string, x: T)
    requires x in xs
    ensures var gs := GroupBy(xs, key);
      && key(x) in Keys(gs)
      && forall j :: 0 <= j < |gs| ==> (x in gs[j].items <==> gs[j].key == key(x))
  {
    GroupByIsFilter(xs, key);
  }
}
