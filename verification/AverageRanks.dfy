/** Ranks with ties averaged (latent_grpo_runner/metrics/probe.py:757-769), over the reals. */
module AverageRanks {

  /** An element of `enumerate(values)`. */
  datatype Item = Item(index: nat, value: real)

  /** The sort key: by value, then by index. */
  predicate Precedes(a: Item, b: Item) {
    a.value < b.value || (a.value == b.value && a.index < b.index)
  }

  function Insert(items: seq<Item>, it: Item): seq<Item> {
    if items == [] then [it]
    else if Precedes(it, items[|items| - 1]) then Insert(items[..|items| - 1], it) + [items[|items| - 1]]
    else items + [it]
  }

  /** `sorted(enumerate(values))` over the first n values. */
  function Sorted(values: seq<real>, n: nat): seq<Item>
    requires n <= |values|
  {
    if n == 0 then [] else Insert(Sorted(values, n - 1), Item(n - 1, values[n - 1]))
  }

  // ----- counting -----

  function One(b: bool): nat {
    if b then 1 else 0
  }

  /** How many values are less than x. */
  function Less(values: seq<real>, x: real): nat {
    if values == [] then 0 else Less(values[..|values| - 1], x) + One(values[|values| - 1] < x)
  }

  /** How many values are at most x. */
  function AtMost(values: seq<real>, x: real): nat {
    if values == [] then 0 else AtMost(values[..|values| - 1], x) + One(values[|values| - 1] <= x)
  }

  /** The rank of x among the values: the mean of the positions that its ties share. */
  function Rank(values: seq<real>, x: real): real {
    (Less(values, x) + AtMost(values, x) + 1) as real / 2.0
  }

  function ValuesOf(items: seq<Item>): (r: seq<real>)
    ensures |r| == |items| && forall i | 0 <= i < |r| :: r[i] == items[i].value
  {
    seq(|items|, i requires 0 <= i < |items| => items[i].value)
  }

  lemma {:induction false} InsertCounts(items: seq<Item>, it: Item, x: real)
    ensures Less(ValuesOf(Insert(items, it)), x) == Less(ValuesOf(items), x) + One(it.value < x)
    ensures AtMost(ValuesOf(Insert(items, it)), x) == AtMost(ValuesOf(items), x) + One(it.value <= x)
  {
    var more := Insert(items, it);
    if items == [] {
      assert ValuesOf(more) == [it.value] && [it.value][..0] == [];
    } else if Precedes(it, items[|items| - 1]) {
      InsertCounts(items[..|items| - 1], it, x);
      LastValue(more);
      LastValue(items);
    } else {
      LastValue(more);
    }
  }

  lemma LastValue(items: seq<Item>)
    requires items != []
    ensures ValuesOf(items)[..|items| - 1] == ValuesOf(items[..|items| - 1])
  {
  }

  /** Sorting changes no count. */
  lemma {:induction false} SortedCounts(values: seq<real>, n: nat, x: real)
    requires n <= |values|
    ensures Less(ValuesOf(Sorted(values, n)), x) == Less(values[..n], x)
    ensures AtMost(ValuesOf(Sorted(values, n)), x) == AtMost(values[..n], x)
  {
    if n > 0 {
      SortedCounts(values, n - 1, x);
      InsertCounts(Sorted(values, n - 1), Item(n - 1, values[n - 1]), x);
      assert values[..n][..n - 1] == values[..n - 1];
    }
  }

  // ----- sorting -----

  ghost predicate Ascending(items: seq<Item>) {
    forall i, j | 0 <= i < j < |items| :: Precedes(items[i], items[j])
  }

  lemma {:induction false} InsertMembers(items: seq<Item>, it: Item)
    ensures |Insert(items, it)| == |items| + 1
    ensures forall x :: x in Insert(items, it) <==> x in items || x == it
  {
    if items != [] {
      InsertMembers(items[..|items| - 1], it);
      assert items == items[..|items| - 1] + [items[|items| - 1]];
    }
  }

  lemma {:induction false} InsertAscending(items: seq<Item>, it: Item)
    requires Ascending(items) && forall x | x in items :: x.index < it.index
    ensures Ascending(Insert(items, it))
  {
    if items != [] {
      var front, last := items[..|items| - 1], items[|items| - 1];
      InsertMembers(front, it);
      if Precedes(it, last) {
        InsertAscending(front, it);
        forall i | 0 <= i < |front| + 1
          ensures Precedes(Insert(front, it)[i], last)
        {
          assert Insert(front, it)[i] in Insert(front, it);
        }
      }
    }
  }

  ghost predicate Enumerates(items: seq<Item>, values: seq<real>, n: nat) {
    && |items| == n <= |values|
    && (forall i | 0 <= i < n :: Item(i, values[i]) in items)
    && (forall x | x in items :: x.index < n && x.value == values[x.index])
  }

  lemma {:induction false} SortedEnumerates(values: seq<real>, n: nat)
    requires n <= |values|
    ensures Enumerates(Sorted(values, n), values, n)
  {
    if n > 0 {
      SortedEnumerates(values, n - 1);
      InsertMembers(Sorted(values, n - 1), Item(n - 1, values[n - 1]));
    }
  }

  lemma {:induction false} SortedAscends(values: seq<real>, n: nat)
    requires n <= |values|
    ensures Ascending(Sorted(values, n))
  {
    if n > 0 {
      SortedAscends(values, n - 1);
      SortedEnumerates(values, n - 1);
      InsertAscending(Sorted(values, n - 1), Item(n - 1, values[n - 1]));
    }
  }

  /** In sorted values, a run of ties from i to j has i smaller values and j values not larger. */
  lemma {:induction false} CountsInSorted(sorted: seq<real>, i: nat, j: nat, x: real)
    requires i <= j <= |sorted|
    requires forall k | 0 <= k < i :: sorted[k] < x
    requires forall k | i <= k < j :: sorted[k] == x
    requires forall k | j <= k < |sorted| :: sorted[k] > x
    ensures Less(sorted, x) == i && AtMost(sorted, x) == j
  {
    if sorted != [] {
      var n := |sorted| - 1;
      CountsInSorted(sorted[..n], if i <= n then i else n, if j <= n then j else n, x);
    }
  }

  lemma RunCounts(values: seq<real>, i: nat, j: nat)
    requires i < j <= |values| && |Sorted(values, |values|)| == |values| && Ascending(Sorted(values, |values|))
    requires forall k | i <= k < j :: Sorted(values, |values|)[k].value == Sorted(values, |values|)[i].value
    requires i > 0 ==> Sorted(values, |values|)[i - 1].value != Sorted(values, |values|)[i].value
    requires j < |values| ==> Sorted(values, |values|)[j].value != Sorted(values, |values|)[i].value
    ensures Less(values, Sorted(values, |values|)[i].value) == i
    ensures AtMost(values, Sorted(values, |values|)[i].value) == j
  {
    var items := Sorted(values, |values|);
    var x := items[i].value;
    SortedCounts(values, |values|, x);
    assert values[..|values|] == values;
    forall k | 0 <= k < i
      ensures items[k].value < x
    {
      assert Precedes(items[i - 1], items[i]) && (k < i - 1 ==> Precedes(items[k], items[i - 1]));
    }
    forall k | j <= k < |values|
      ensures items[k].value > x
    {
      assert Precedes(items[i], items[j]) && (j < k ==> Precedes(items[j], items[k]));
    }
    CountsInSorted(ValuesOf(items), i, j, x);
  }

  // ----- the loop -----

  /** The items before position i have their ranks. */
  ghost predicate RankedTo(items: seq<Item>, i: nat, values: seq<real>, ranks: seq<real>) {
    && |ranks| == |values| && i <= |items|
    && forall k | 0 <= k < i :: items[k].index < |ranks| && ranks[items[k].index] == Rank(values, items[k].value)
  }

  lemma RankNext(items: seq<Item>, k: nat, values: seq<real>, ranks: seq<real>, average: real)
    requires Ascending(items) && Enumerates(items, values, |values|) && k < |items|
    requires RankedTo(items, k, values, ranks) && average == Rank(values, items[k].value)
    ensures items[k].index < |ranks| && RankedTo(items, k + 1, values, ranks[items[k].index := average])
  {
    assert items[k] in items;
    forall m | 0 <= m < k
      ensures items[m].index != items[k].index
    {
      assert items[m] in items && Precedes(items[m], items[k]);
    }
  }

  /** `_average_ranks`: every element gets half of (number less + number at most + 1). */
  method AverageRanks(values: seq<real>) returns (ranks: seq<real>)
    ensures |ranks| == |values|
    ensures forall i | 0 <= i < |values| :: ranks[i] == Rank(values, values[i])
  {
    var indexed := Sorted(values, |values|);
    SortedEnumerates(values, |values|);
    SortedAscends(values, |values|);
    ranks := seq(|values|, _ => 0.0);
    var i := 0;
    while i < |indexed|
      invariant 0 <= i <= |indexed| && RankedTo(indexed, i, values, ranks)
      invariant 0 < i < |indexed| ==> indexed[i - 1].value != indexed[i].value
    {
      var j := EndOfRun(indexed, i);
      var average := (i + 1 + j) as real / 2.0;
      RunCounts(values, i, j);
      ranks := RankRun(indexed, i, j, values, ranks, average);
      i := j;
    }
    AllRanked(indexed, values, ranks);
  }

  /** The scan for the end of a run of ties. */
  method EndOfRun(indexed: seq<Item>, i: nat) returns (j: nat)
    requires i < |indexed|
    ensures i < j <= |indexed| && forall k | i <= k < j :: indexed[k].value == indexed[i].value
    ensures j < |indexed| ==> indexed[j].value != indexed[i].value
  {
    j := i + 1;
    while j < |indexed| && indexed[j].value == indexed[i].value
      invariant i < j <= |indexed|
      invariant forall k | i <= k < j :: indexed[k].value == indexed[i].value
    {
      j := j + 1;
    }
  }

  /** The loop that gives a run its average. */
  method RankRun(indexed: seq<Item>, i: nat, j: nat, values: seq<real>, before: seq<real>, average: real)
    returns (ranks: seq<real>)
    requires Ascending(indexed) && Enumerates(indexed, values, |values|) && i < j <= |indexed|
    requires forall k | i <= k < j :: indexed[k].value == indexed[i].value
    requires RankedTo(indexed, i, values, before) && average == Rank(values, indexed[i].value)
    ensures RankedTo(indexed, j, values, ranks)
  {
    ranks := before;
    for k := i to j
      invariant RankedTo(indexed, k, values, ranks)
    {
      RankNext(indexed, k, values, ranks, average);
      ranks := ranks[indexed[k].index := average];
    }
  }

  lemma AllRanked(items: seq<Item>, values: seq<real>, ranks: seq<real>)
    requires Enumerates(items, values, |values|) && RankedTo(items, |values|, values, ranks)
    ensures forall i | 0 <= i < |values| :: ranks[i] == Rank(values, values[i])
  {
    forall i | 0 <= i < |values|
      ensures ranks[i] == Rank(values, values[i])
    {
      assert Item(i, values[i]) in items;
      var k :| 0 <= k < |items| && items[k] == Item(i, values[i]);
      assert ranks[items[k].index] == Rank(values, items[k].value);
    }
  }

  // ----- what the ranks mean -----

  function Ranks(values: seq<real>): (r: seq<real>)
    ensures |r| == |values| && forall i | 0 <= i < |r| :: r[i] == Rank(values, values[i])
  {
    seq(|values|, i requires 0 <= i < |values| => Rank(values, values[i]))
  }

  lemma {:induction false} CountsOrder(values: seq<real>, x: real, y: real)
    requires x < y
    ensures Less(values, x) <= AtMost(values, x) <= Less(values, y) <= AtMost(values, y)
  {
    if values != [] {
      CountsOrder(values[..|values| - 1], x, y);
    }
  }

  lemma {:induction false} CountsSelf(values: seq<real>, i: nat)
    requires i < |values|
    ensures Less(values, values[i]) < AtMost(values, values[i])
  {
    var front := values[..|values| - 1];
    if i < |values| - 1 {
      CountsSelf(front, i);
    } else {
      LessAtMost(front, values[i]);
    }
  }

  lemma {:induction false} LessAtMost(values: seq<real>, x: real)
    ensures Less(values, x) <= AtMost(values, x)
  {
    if values != [] {
      LessAtMost(values[..|values| - 1], x);
    }
  }

  /** Ranks respect order and ties, both ways. */
  lemma RanksFollowOrder(values: seq<real>, i: nat, j: nat)
    requires i < |values| && j < |values|
    ensures Ranks(values)[i] < Ranks(values)[j] <==> values[i] < values[j]
    ensures Ranks(values)[i] == Ranks(values)[j] <==> values[i] == values[j]
  {
    CountsSelf(values, i);
    CountsSelf(values, j);
    if values[i] < values[j] {
      CountsOrder(values, values[i], values[j]);
    } else if values[j] < values[i] {
      CountsOrder(values, values[j], values[i]);
    }
  }

  function Sum(xs: seq<real>): real {
    if xs == [] then 0.0 else Sum(xs[..|xs| - 1]) + xs[|xs| - 1]
  }

  /** Twice the ranks of the values of xs among `values`, less one each. */
  function Positions(xs: seq<real>, values: seq<real>): nat {
    if xs == [] then 0
    else Positions(xs[..|xs| - 1], values) + Less(values, xs[|xs| - 1]) + AtMost(values, xs[|xs| - 1])
  }

  /** One more value y raises the counts of every x by 0, 1 or 2, and its own counts make up the rest. */
  lemma {:induction false} OneMoreValue(xs: seq<real>, values: seq<real>, y: real)
    ensures Positions(xs, values + [y]) + Less(xs, y) + AtMost(xs, y) == Positions(xs, values) + 2 * |xs|
  {
    if xs != [] {
      OneMoreValue(xs[..|xs| - 1], values, y);
      assert (values + [y])[..|values|] == values;
    }
  }

  lemma {:induction false} PositionsSquare(values: seq<real>)
    ensures Positions(values, values) == |values| * |values|
  {
    if values != [] {
      var front, y := values[..|values| - 1], values[|values| - 1];
      PositionsSquare(front);
      OneMoreValue(front, front, y);
      assert values == front + [y];
      assert |values| * |values| == |front| * |front| + 2 * |front| + 1;
    }
  }

  lemma {:induction false} SumOfRanks(xs: seq<real>, values: seq<real>, ranks: seq<real>)
    requires |ranks| == |xs| && forall i | 0 <= i < |xs| :: ranks[i] == Rank(values, xs[i])
    ensures 2.0 * Sum(ranks) == (Positions(xs, values) + |xs|) as real
  {
    if xs != [] {
      SumOfRanks(xs[..|xs| - 1], values, ranks[..|xs| - 1]);
    }
  }

  /** The ranks of n values sum to n (n + 1) / 2, whatever the ties. */
  lemma RanksSum(values: seq<real>)
    ensures 2.0 * Sum(Ranks(values)) == (|values| * (|values| + 1)) as real
  {
    PositionsSquare(values);
    SumOfRanks(values, values, Ranks(values));
  }

  ghost predicate SameOrder(xs: seq<real>, ys: seq<real>) {
    |xs| == |ys| && forall i, j | 0 <= i < |xs| && 0 <= j < |xs| :: xs[i] < xs[j] <==> ys[i] < ys[j]
  }

  lemma {:induction false} SameCounts(xs: seq<real>, ys: seq<real>, m: nat, i: nat)
    requires SameOrder(xs, ys) && m <= |xs| && i < |xs|
    ensures Less(xs[..m], xs[i]) == Less(ys[..m], ys[i]) && AtMost(xs[..m], xs[i]) == AtMost(ys[..m], ys[i])
  {
    if m > 0 {
      SameCounts(xs, ys, m - 1, i);
      assert xs[..m][..m - 1] == xs[..m - 1] && ys[..m][..m - 1] == ys[..m - 1];
      assert xs[m - 1] < xs[i] <==> ys[m - 1] < ys[i];
      assert xs[i] < xs[m - 1] <==> ys[i] < ys[m - 1];
    }
  }

  /** Ranks depend on the order of the values only. */
  lemma RanksDependOnOrder(xs: seq<real>, ys: seq<real>)
    requires SameOrder(xs, ys)
    ensures Ranks(xs) == Ranks(ys)
  {
    forall i | 0 <= i < |xs|
      ensures Rank(xs, xs[i]) == Rank(ys, ys[i])
    {
      SameCounts(xs, ys, |xs|, i);
      assert xs[..|xs|] == xs && ys[..|ys|] == ys;
    }
  }

  /** No strictly increasing change of scale shows in the ranks. */
  lemma ScaleDoesNotMatter(xs: seq<real>, f: real -> real)
    requires forall a, b: real | a < b :: f(a) < f(b)
    ensures Ranks(seq(|xs|, i requires 0 <= i < |xs| => f(xs[i]))) == Ranks(xs)
  {
    var ys := seq(|xs|, i requires 0 <= i < |xs| => f(xs[i]));
    forall i, j | 0 <= i < |xs| && 0 <= j < |xs|
      ensures xs[i] < xs[j] <==> ys[i] < ys[j]
    {
      if xs[j] < xs[i] {
        assert f(xs[j]) < f(xs[i]);
      }
    }
    RanksDependOnOrder(xs, ys);
  }
}
