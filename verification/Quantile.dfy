/** The weighted quantile of the sampled spreads. */
module Quantile {
  import opened Options

  datatype Item = Item(value: real, weight: real)

  /** The weight of the items with a value of at most `v`. */
  function WeightUpTo(items: seq<Item>, v: real): real {
    if items == [] then 0.0
    else WeightUpTo(items[..|items| - 1], v) + if items[|items| - 1].value <= v then items[|items| - 1].weight else 0.0
  }

  function TotalWeight(items: seq<Item>): real {
    if items == [] then 0.0 else TotalWeight(items[..|items| - 1]) + items[|items| - 1].weight
  }

  predicate Sorted(items: seq<Item>) {
    |items| < 2 || (items[|items| - 2].value <= items[|items| - 1].value && Sorted(items[..|items| - 1]))
  }

  predicate NonNegative(items: seq<Item>) {
    items == [] || (items[|items| - 1].weight >= 0.0 && NonNegative(items[..|items| - 1]))
  }

  // --------------------------------------------------------------------- sorting

  /** Insert behind the items that are not greater: the order a stable sort gives. */
  function Insert(x: Item, items: seq<Item>): (r: seq<Item>)
    ensures r != []
  {
    if items == [] || items[|items| - 1].value <= x.value then items + [x]
    else Insert(x, items[..|items| - 1]) + [items[|items| - 1]]
  }

  function Ordered(items: seq<Item>): seq<Item> {
    if items == [] then [] else Insert(items[|items| - 1], Ordered(items[..|items| - 1]))
  }

  lemma Snoc(items: seq<Item>, x: Item, v: real)
    ensures (items + [x])[..|items|] == items
    ensures WeightUpTo(items + [x], v) == WeightUpTo(items, v) + if x.value <= v then x.weight else 0.0
    ensures TotalWeight(items + [x]) == TotalWeight(items) + x.weight
    ensures NonNegative(items) && x.weight >= 0.0 ==> NonNegative(items + [x])
    ensures Sorted(items) && (items == [] || items[|items| - 1].value <= x.value) ==> Sorted(items + [x])
  {
    assert (items + [x])[..|items|] == items;
  }

  lemma {:induction false} InsertedSorted(x: Item, items: seq<Item>)
    requires Sorted(items)
    ensures var r := Insert(x, items);
            Sorted(r) && (r[|r| - 1] == x || (items != [] && r[|r| - 1] == items[|items| - 1]))
  {
    if items == [] || items[|items| - 1].value <= x.value {
      Snoc(items, x, 0.0);
    } else {
      var init, last := items[..|items| - 1], items[|items| - 1];
      InsertedSorted(x, init);
      Snoc(Insert(x, init), last, 0.0);
    }
  }

  lemma {:induction false} InsertedWeights(x: Item, items: seq<Item>, v: real)
    ensures var r := Insert(x, items);
            && WeightUpTo(r, v) == WeightUpTo(items, v) + (if x.value <= v then x.weight else 0.0)
            && TotalWeight(r) == TotalWeight(items) + x.weight
            && (NonNegative(items) && x.weight >= 0.0 ==> NonNegative(r))
  {
    if items == [] || items[|items| - 1].value <= x.value {
      Snoc(items, x, v);
    } else {
      var init, last := items[..|items| - 1], items[|items| - 1];
      InsertedWeights(x, init, v);
      Snoc(Insert(x, init), last, v);
    }
  }

  lemma {:induction false} InsertMembers(x: Item, items: seq<Item>, y: Item)
    ensures y in Insert(x, items) <==> y == x || y in items
  {
    if items != [] && items[|items| - 1].value > x.value { InsertMembers(x, items[..|items| - 1], y); }
  }

  lemma {:induction false} OrderedMembers(items: seq<Item>, y: Item)
    ensures y in Ordered(items) <==> y in items
  {
    if items != [] {
      OrderedMembers(items[..|items| - 1], y);
      InsertMembers(items[|items| - 1], Ordered(items[..|items| - 1]), y);
    }
  }

  /** Sorting keeps the weight below any value. */
  lemma {:induction false} OrderedKeepsWeights(items: seq<Item>, v: real)
    ensures Sorted(Ordered(items)) && WeightUpTo(Ordered(items), v) == WeightUpTo(items, v)
    ensures TotalWeight(Ordered(items)) == TotalWeight(items)
    ensures NonNegative(items) ==> NonNegative(Ordered(items))
    ensures Ordered(items) == [] <==> items == []
  {
    if items != [] {
      OrderedKeepsWeights(items[..|items| - 1], v);
      InsertedSorted(items[|items| - 1], Ordered(items[..|items| - 1]));
      InsertedWeights(items[|items| - 1], Ordered(items[..|items| - 1]), v);
    }
  }

  // -------------------------------------------------------------- what a quantile is

  /** `v` is the least value of an item at which the weight from below reaches the threshold. */
  ghost predicate IsLeast(items: seq<Item>, threshold: real, v: real) {
    && (exists x :: x in items && x.value == v)
    && WeightUpTo(items, v) >= threshold
    && forall x :: x in items && x.value < v ==> WeightUpTo(items, x.value) < threshold
  }

  lemma {:induction false} MoreValueMoreWeight(items: seq<Item>, u: real, v: real)
    requires NonNegative(items) && u <= v
    ensures 0.0 <= WeightUpTo(items, u) <= WeightUpTo(items, v) <= TotalWeight(items)
  {
    if items != [] { MoreValueMoreWeight(items[..|items| - 1], u, v); }
  }

  /** A higher threshold is reached at the same value or later. */
  lemma LeastIsMonotone(items: seq<Item>, s: real, t: real, u: real, v: real)
    requires s <= t && IsLeast(items, s, u) && IsLeast(items, t, v)
    ensures u <= v
  {
    var x :| x in items && x.value == v;
  }

  /** The share `p` of a total weight. */
  function Share(p: real, w: real): real {
    p * w
  }

  lemma ShareGrows(p: real, q: real, w: real)
    requires p <= q && w >= 0.0
    ensures Share(p, w) <= Share(q, w)
  {
  }

  /** The value at which the weight from below first reaches the share `p` of the total. */
  ghost predicate IsQuantile(items: seq<Item>, p: real, v: real) {
    IsLeast(items, Share(p, TotalWeight(items)), v)
  }

  /** Quantiles are unique and grow with the probability. */
  lemma QuantileIsMonotone(items: seq<Item>, p: real, q: real, u: real, v: real)
    requires NonNegative(items) && p <= q
    requires IsQuantile(items, p, u) && IsQuantile(items, q, v)
    ensures u <= v && (p == q ==> u == v)
  {
    var w := TotalWeight(items);
    MoreValueMoreWeight(items, u, u);
    ShareGrows(p, q, w);
    LeastIsMonotone(items, Share(p, w), Share(q, w), u, v);
    if p == q { LeastIsMonotone(items, Share(q, w), Share(p, w), v, u); }
  }

  // ----------------------------------------------------------------------- the loop

  predicate AllAbove(items: seq<Item>, u: real) {
    items == [] || (items[|items| - 1].value > u && AllAbove(items[..|items| - 1], u))
  }

  predicate AllAtMost(items: seq<Item>, v: real) {
    items == [] || (items[|items| - 1].value <= v && AllAtMost(items[..|items| - 1], v))
  }

  lemma {:induction false} WeightOfPrefix(a: seq<Item>, rest: seq<Item>, v: real)
    requires NonNegative(a + rest)
    ensures AllAtMost(a, v) ==> WeightUpTo(a + rest, v) >= TotalWeight(a)
    ensures AllAbove(rest, v) ==> WeightUpTo(a + rest, v) <= TotalWeight(a)
  {
    if rest == [] {
      assert a + rest == a;
      WeightOfAll(a, v);
    } else {
      var init, last := rest[..|rest| - 1], rest[|rest| - 1];
      assert a + rest == (a + init) + [last];
      assert ((a + init) + [last])[..|a + init|] == a + init;
      WeightOfPrefix(a, init, v);
    }
  }

  lemma {:induction false} WeightOfAll(a: seq<Item>, v: real)
    requires NonNegative(a)
    ensures WeightUpTo(a, v) <= TotalWeight(a) && (AllAtMost(a, v) ==> WeightUpTo(a, v) == TotalWeight(a))
  {
    if a != [] { WeightOfAll(a[..|a| - 1], v); }
  }

  lemma {:induction false} SortedBelow(a: seq<Item>, v: real)
    requires Sorted(a) && (a != [] ==> a[|a| - 1].value <= v)
    ensures AllAtMost(a, v)
  {
    if a != [] { SortedBelow(a[..|a| - 1], v); }
  }

  /** In a sorted list everything from the first item on is at least as large. */
  lemma {:induction false} SortedAbove(a: seq<Item>, rest: seq<Item>, u: real)
    requires Sorted(a + rest) && rest != [] && u < rest[0].value
    ensures AllAbove(rest, u) && Sorted(a) && rest[|rest| - 1].value >= rest[0].value
  {
    var init, last := rest[..|rest| - 1], rest[|rest| - 1];
    assert a + rest == (a + init) + [last];
    assert ((a + init) + [last])[..|a + init|] == a + init;
    if init != [] {
      SortedAbove(a, init, u);
    } else {
      assert a + init == a;
      SortedInit(a, last);
    }
  }

  lemma SortedInit(a: seq<Item>, x: Item)
    requires Sorted(a + [x])
    ensures Sorted(a) && (a != [] ==> a[|a| - 1].value <= x.value)
  {
    assert (a + [x])[..|a|] == a;
  }

  lemma ReachedHere(ordered: seq<Item>, a: seq<Item>, x: Item, rest: seq<Item>, threshold: real)
    requires NonNegative(ordered) && Sorted(ordered) && ordered == a + ([x] + rest)
    requires TotalWeight(a) < threshold || a == []
    requires TotalWeight(a) + x.weight >= threshold
    ensures IsLeast(ordered, threshold, x.value)
  {
    assert ordered == (a + [x]) + rest;
    Snoc(a, x, x.value);
    SortedBlocks(a, x, rest);
    SortedBelow(a + [x], x.value);
    WeightOfPrefix(a + [x], rest, x.value);
    assert x in ordered;
    forall y | y in ordered && y.value < x.value ensures WeightUpTo(ordered, y.value) < threshold {
      SortedAbove(a, [x] + rest, y.value);
      WeightOfPrefix(a, [x] + rest, y.value);
      if a == [] { NoneBelow([x] + rest, y.value, y); }
    }
  }

  lemma {:induction false} SortedBlocks(a: seq<Item>, x: Item, rest: seq<Item>)
    requires Sorted(a + [x] + rest)
    ensures Sorted(a + [x])
  {
    if rest == [] {
      assert a + [x] + rest == a + [x];
    } else {
      var init, last := rest[..|rest| - 1], rest[|rest| - 1];
      assert a + [x] + rest == (a + [x] + init) + [last];
      SortedInit(a + [x] + init, last);
      SortedBlocks(a, x, init);
    }
  }

  lemma {:induction false} NoneBelow(rest: seq<Item>, u: real, y: Item)
    requires AllAbove(rest, u) && y in rest
    ensures y.value > u
  {
    if y != rest[|rest| - 1] { NoneBelow(rest[..|rest| - 1], u, y); }
  }

  lemma LeastOfOrdered(items: seq<Item>, threshold: real, v: real)
    requires IsLeast(Ordered(items), threshold, v)
    ensures IsLeast(items, threshold, v)
  {
    var x :| x in Ordered(items) && x.value == v;
    OrderedMembers(items, x);
    OrderedKeepsWeights(items, v);
    forall y | y in items && y.value < v ensures WeightUpTo(items, y.value) < threshold {
      OrderedMembers(items, y);
      OrderedKeepsWeights(items, y.value);
    }
  }

  lemma PrefixGrows(ordered: seq<Item>, i: nat)
    requires i < |ordered|
    ensures TotalWeight(ordered[..i + 1]) == TotalWeight(ordered[..i]) + ordered[i].weight
  {
    assert ordered[..i + 1] == ordered[..i] + [ordered[i]];
    Snoc(ordered[..i], ordered[i], 0.0);
  }

  lemma ReachedAt(ordered: seq<Item>, i: nat, threshold: real)
    requires NonNegative(ordered) && Sorted(ordered) && i < |ordered|
    requires TotalWeight(ordered[..i]) < threshold || i == 0
    requires TotalWeight(ordered[..i]) + ordered[i].weight >= threshold
    ensures IsLeast(ordered, threshold, ordered[i].value)
  {
    assert ordered == ordered[..i] + ([ordered[i]] + ordered[i + 1..]);
    ReachedHere(ordered, ordered[..i], ordered[i], ordered[i + 1..], threshold);
  }

  /** `v` is the first value in order at which the running weight reaches the threshold, or the last one if none
      does. */
  ghost predicate FirstAt(ordered: seq<Item>, threshold: real, v: real, k: nat)
    requires k < |ordered|
  {
    && ordered[k].value == v
    && (forall j :: 0 < j <= k ==> TotalWeight(ordered[..j]) < threshold)
    && (TotalWeight(ordered[..k + 1]) >= threshold || k + 1 == |ordered|)
  }

  method FirstReaching(ordered: seq<Item>, threshold: real) returns (v: real, ghost k: nat)
    requires Sorted(ordered) && ordered != []
    ensures k < |ordered| && FirstAt(ordered, threshold, v, k)
    ensures NonNegative(ordered) && threshold <= TotalWeight(ordered) ==> IsLeast(ordered, threshold, v)
  {
    var cumulative := 0.0;
    for i := 0 to |ordered|
      invariant cumulative == TotalWeight(ordered[..i])
      invariant forall j :: 0 < j <= i ==> TotalWeight(ordered[..j]) < threshold
    {
      PrefixGrows(ordered, i);
      cumulative := cumulative + ordered[i].weight;
      if cumulative >= threshold {
        if NonNegative(ordered) { ReachedAt(ordered, i, threshold); }
        return ordered[i].value, i;
      }
    }
    assert ordered[..|ordered|] == ordered;
    v, k := ordered[|ordered| - 1].value, |ordered| - 1;
  }

  /** For any weights: no answer exactly without items or without weight, else the first value in order whose running
      weight reaches the share.  For weights that are not negative that is the quantile. */
  method WeightedQuantile(items: seq<Item>, p: real) returns (v: Option<real>)
    ensures v.None? <==> items == [] || TotalWeight(items) <= 0.0
    ensures v.Some? ==> exists k | 0 <= k < |Ordered(items)| ::
            FirstAt(Ordered(items), Share(p, TotalWeight(items)), v.value, k)
    ensures v.Some? && NonNegative(items) && p <= 1.0 ==> IsQuantile(items, p, v.value)
  {
    if items == [] { return None; }
    OrderedKeepsWeights(items, 0.0);
    var ordered := Ordered(items);
    var total := TotalWeight(ordered);
    if total <= 0.0 { return None; }
    ghost var k;
    var least;
    least, k := FirstReaching(ordered, Share(p, total));
    if NonNegative(items) && p <= 1.0 {
      ShareGrows(p, 1.0, total);
      LeastOfOrdered(items, Share(p, total), least);
    }
    v := Some(least);
  }
}
