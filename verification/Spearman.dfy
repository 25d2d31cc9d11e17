/** Rank correlation (latent_grpo_runner/metrics/probe.py:735-754), over the reals. */
module Spearman {
  import opened AverageRanks
  import opened Floats

  datatype Reason = TooFewPairs | ConstantRank

  datatype Outcome = UnequalLengths | NoValue(reason: Reason, pairs: nat) | Rho(value: real, pairs: nat)

  // ----- sums of products -----

  function Dot(xs: seq<real>, ys: seq<real>): real
    requires |xs| == |ys|
  {
    if xs == [] then 0.0 else Dot(xs[..|xs| - 1], ys[..|ys| - 1]) + xs[|xs| - 1] * ys[|ys| - 1]
  }

  lemma SquareSign(x: real)
    ensures x * x >= 0.0
  {
  }

  lemma PositiveProduct(x: real, y: real, s: real)
    requires x > 0.0 && y > 0.0 && s == x * y
    ensures s > 0.0
  {
  }

  lemma NegativeProduct(x: real, y: real, s: real)
    requires x < 0.0 && y < 0.0 && s == x * y
    ensures s > 0.0
  {
  }

  lemma EqualProduct(x: real, y: real, s: real)
    requires x == y && x != 0.0 && s == x * y
    ensures s > 0.0
  {
    if x > 0.0 {
      PositiveProduct(x, y, s);
    } else {
      NegativeProduct(x, y, s);
    }
  }

  lemma NonZeroSquare(x: real, s: real)
    requires x != 0.0 && s == x * x
    ensures s > 0.0
  {
    EqualProduct(x, x, s);
  }

  lemma {:induction false} DotPositive(xs: seq<real>)
    ensures Dot(xs, xs) >= 0.0
  {
    if xs != [] {
      DotPositive(xs[..|xs| - 1]);
      SquareSign(xs[|xs| - 1]);
    }
  }

  lemma {:induction false} DotStrict(xs: seq<real>, i: nat)
    requires i < |xs| && xs[i] != 0.0
    ensures Dot(xs, xs) > 0.0
  {
    var n := |xs| - 1;
    DotPositive(xs[..n]);
    if i < n {
      DotStrict(xs[..n], i);
      SquareSign(xs[n]);
      Added(xs[n] * xs[n], Dot(xs[..n], xs[..n]), Dot(xs, xs));
    } else {
      LastSquare(xs[n], Dot(xs[..n], xs[..n]), Dot(xs, xs));
    }
  }

  lemma LastSquare(x: real, a: real, sum: real)
    requires x != 0.0 && a >= 0.0 && sum == a + x * x
    ensures sum > 0.0
  {
    NonZeroSquare(x, x * x);
    Added(a, sum - a, sum);
  }

  lemma Added(a: real, b: real, sum: real)
    requires a >= 0.0 && b > 0.0 && sum == a + b
    ensures sum > 0.0
  {
  }

  lemma Product(x: real, y: real)
    requires x >= 0.0 && y >= 0.0
    ensures x * y >= 0.0
  {
  }

  lemma SquareGrows(x: real, y: real)
    requires 0.0 <= y < x
    ensures x * x > y * y
  {
    var d := x - y;
    NonZeroSquare(d, d * d);
    Product(d, y);
    assert x * x == y * y + (2.0 * (d * y) + d * d) by {
      assert x == y + d;
    }
    Added(y * y + 2.0 * (d * y) - y * y, d * d, x * x - y * y);
  }

  lemma SquareOrder(x: real, y: real)
    requires y >= 0.0 && x * x <= y * y
    ensures -y <= x <= y
  {
    if x > y {
      SquareGrows(x, y);
    } else if -x > y {
      SquareGrows(-x, y);
    }
  }

  /** (2 s p q)^2 <= (a q^2 + b p^2)^2 when s^2 <= a b. */
  lemma CrossTerm(s: real, a: real, b: real, p: real, q: real)
    requires a >= 0.0 && b >= 0.0 && s * s <= a * b
    ensures 2.0 * s * (p * q) <= a * (q * q) + b * (p * p)
  {
    var u, v := a * (q * q), b * (p * p);
    SquareSign(q);
    SquareSign(p);
    Product(a, q * q);
    Product(b, p * p);
    CrossSquares(s, a, b, p * q);
    assert u * v == a * b * (p * q * (p * q));
    SquareSign(u - v);
    assert (u + v) * (u + v) == (u - v) * (u - v) + 4.0 * (u * v);
    var x := 2.0 * s * (p * q);
    assert x * x == 4.0 * (s * s * (p * q * (p * q)));
    SquareOrder(x, u + v);
  }

  lemma CrossSquares(s: real, a: real, b: real, r: real)
    requires s * s <= a * b
    ensures s * s * (r * r) <= a * b * (r * r)
  {
    SquareSign(r);
    Product(a * b - s * s, r * r);
    assert (a * b - s * s) * (r * r) == a * b * (r * r) - s * s * (r * r);
  }

  /** The Cauchy-Schwarz inequality. */
  lemma {:induction false} CauchySchwarz(xs: seq<real>, ys: seq<real>)
    requires |xs| == |ys|
    ensures Dot(xs, ys) * Dot(xs, ys) <= Dot(xs, xs) * Dot(ys, ys)
  {
    if xs != [] {
      var n := |xs| - 1;
      CauchySchwarz(xs[..n], ys[..n]);
      DotPositive(xs[..n]);
      DotPositive(ys[..n]);
      CauchyStep(Dot(xs[..n], ys[..n]), Dot(xs[..n], xs[..n]), Dot(ys[..n], ys[..n]), xs[n], ys[n]);
    }
  }

  lemma CauchyStep(s: real, a: real, b: real, p: real, q: real)
    requires a >= 0.0 && b >= 0.0 && s * s <= a * b
    ensures (s + p * q) * (s + p * q) <= (a + p * p) * (b + q * q)
  {
    CrossTerm(s, a, b, p, q);
    assert (s + p * q) * (s + p * q) == s * s + 2.0 * s * (p * q) + p * q * (p * q);
    assert (a + p * p) * (b + q * q) == a * b + (a * (q * q) + b * (p * p)) + p * p * (q * q);
    assert p * q * (p * q) == p * p * (q * q);
  }

  // ----- the correlation -----

  function Mean(xs: seq<real>): real
    requires |xs| > 0
  {
    Sum(xs) / |xs| as real
  }

  /** The deviations from the mean. */
  function Centered(xs: seq<real>): (r: seq<real>)
    requires |xs| > 0
    ensures |r| == |xs| && forall i | 0 <= i < |r| :: r[i] == xs[i] - Mean(xs)
  {
    seq(|xs|, i requires 0 <= i < |xs| => xs[i] - Mean(xs))
  }

  /** The sum of squared deviations. */
  function Spread(xs: seq<real>): real
    requires |xs| > 0
  {
    Dot(Centered(xs), Centered(xs))
  }

  /** Two different values make the spread positive: the zero-denominator exit is unreachable. */
  lemma DistinctMeansSpread(xs: seq<real>, i: nat, j: nat)
    requires i < |xs| && j < |xs| && xs[i] != xs[j]
    ensures Spread(xs) > 0.0
  {
    if xs[i] != Mean(xs) {
      DotStrict(Centered(xs), i);
    } else {
      DotStrict(Centered(xs), j);
    }
  }

  predicate AllEqual(xs: seq<real>) {
    forall i, j | 0 <= i < |xs| && 0 <= j < |xs| :: xs[i] == xs[j]
  }

  lemma RanksSpread(values: seq<real>)
    requires !AllEqual(values)
    ensures Spread(Ranks(values)) > 0.0
  {
    var i, j :| 0 <= i < |values| && 0 <= j < |values| && values[i] != values[j];
    RanksFollowOrder(values, i, j);
    DistinctMeansSpread(Ranks(values), i, j);
  }

  /** The mean of ranks is the middle rank. */
  lemma MiddleRank(values: seq<real>)
    requires |values| > 0
    ensures Mean(Ranks(values)) == (|values| + 1) as real / 2.0
    ensures forall i | 0 <= i < |values| ::
              Centered(Ranks(values))[i] == Ranks(values)[i] - (|values| + 1) as real / 2.0
  {
    RanksSum(values);
    MeanIs(Sum(Ranks(values)), |values|);
  }

  lemma MeanIs(sum: real, n: nat)
    requires n > 0 && 2.0 * sum == (n * (n + 1)) as real
    ensures sum / n as real == (n + 1) as real / 2.0
  {
    var m := (n + 1) as real / 2.0;
    assert (n * (n + 1)) as real == n as real * (n + 1) as real;
    assert sum == m * n as real;
  }

  /** `root` is the square root of x, as math.sqrt returns it. */
  predicate IsRoot(root: real, x: real) {
    root >= 0.0 && root * root == x
  }

  lemma Bounded(num: real, a: real, b: real, x: real, y: real)
    requires IsRoot(a, x) && IsRoot(b, y) && x > 0.0 && y > 0.0 && num * num <= x * y
    ensures a * b > 0.0 && -1.0 <= num / (a * b) <= 1.0
  {
    Product(a, b);
    assert a * b * (a * b) == x * y;
    Product(x, y);
    SquareOrder(num, a * b);
    PositiveFactors(a, b);
    QuotientBounds(num, a * b);
  }

  lemma PositiveFactors(a: real, b: real)
    requires a >= 0.0 && b >= 0.0 && a * a > 0.0 && b * b > 0.0
    ensures a * b > 0.0
  {
  }

  lemma QuotientBounds(num: real, d: real)
    requires d > 0.0 && -d <= num <= d
    ensures -1.0 <= num / d <= 1.0
  {
    var q := num / d;
    assert q * d == num;
  }

  /** The pairs with two finite members. */
  function FinitePairs(left: seq<Float>, right: seq<Float>): seq<(real, real)>
    requires |left| == |right|
  {
    if left == [] then []
    else
      var n := |left| - 1;
      FinitePairs(left[..n], right[..n])
      + if left[n].Finite? && right[n].Finite? then [(left[n].value, right[n].value)] else []
  }

  /** The pairs are those of the places at which both values are finite, in order. */
  ghost predicate PairsAt(left: seq<Float>, right: seq<Float>, places: seq<nat>, pairs: seq<(real, real)>) {
    && |places| == |pairs|
    && (forall k | 0 <= k < |places| ::
          && places[k] < |left| && places[k] < |right|
          && left[places[k]] == Finite(pairs[k].0) && right[places[k]] == Finite(pairs[k].1))
    && (forall k, l | 0 <= k < l < |places| :: places[k] < places[l])
    && forall i: nat | i < |left| && i < |right| && left[i].Finite? && right[i].Finite? :: i in places
  }

  lemma {:induction false} PairsMean(left: seq<Float>, right: seq<Float>) returns (places: seq<nat>)
    requires |left| == |right|
    ensures PairsAt(left, right, places, FinitePairs(left, right))
  {
    if left == [] {
      places := [];
    } else {
      var n := |left| - 1;
      var front := PairsMean(left[..n], right[..n]);
      places := if left[n].Finite? && right[n].Finite? then front + [n] else front;
      PairsSnoc(left, right, n, front, FinitePairs(left[..n], right[..n]));
    }
  }

  lemma PairsSnoc(left: seq<Float>, right: seq<Float>, n: nat, places: seq<nat>, pairs: seq<(real, real)>)
    requires |left| == |right| == n + 1 && PairsAt(left[..n], right[..n], places, pairs)
    ensures if left[n].Finite? && right[n].Finite?
            then PairsAt(left, right, places + [n], pairs + [(left[n].value, right[n].value)])
            else PairsAt(left, right, places, pairs)
  {
    forall i: nat | i < n && left[i].Finite? && right[i].Finite?
      ensures i in places
    {
      assert left[..n][i] == left[i] && right[..n][i] == right[i];
    }
  }

  function Firsts(pairs: seq<(real, real)>): (r: seq<real>)
    ensures |r| == |pairs|
  {
    seq(|pairs|, i requires 0 <= i < |pairs| => pairs[i].0)
  }

  function Seconds(pairs: seq<(real, real)>): (r: seq<real>)
    ensures |r| == |pairs|
  {
    seq(|pairs|, i requires 0 <= i < |pairs| => pairs[i].1)
  }

  /** Roots are needed when a correlation is computed. */
  ghost predicate RootsGiven(pairs: seq<(real, real)>, leftRoot: real, rightRoot: real) {
    |pairs| >= 2 ==>
      && IsRoot(leftRoot, Spread(Ranks(Firsts(pairs))))
      && IsRoot(rightRoot, Spread(Ranks(Seconds(pairs))))
  }

  /** `_spearman`: with the lengths equal, no value is given exactly when there are fewer than two finite pairs or
      one side is constant; otherwise the value lies between -1 and 1 and is the covariance of the ranks over the
      product of the roots, which is not zero. */
  method Correlate(left: seq<Float>, right: seq<Float>, leftRoot: real, rightRoot: real) returns (r: Outcome)
    requires |left| == |right| ==> RootsGiven(FinitePairs(left, right), leftRoot, rightRoot)
    ensures r.UnequalLengths? <==> |left| != |right|
    ensures |left| == |right| ==>
              var pairs := FinitePairs(left, right);
              && (r == NoValue(TooFewPairs, |pairs|) <==> |pairs| < 2)
              && (r == NoValue(ConstantRank, |pairs|)
                  <==> |pairs| >= 2 && (AllEqual(Firsts(pairs)) || AllEqual(Seconds(pairs))))
              && (r.Rho? ==>
                    && r.pairs == |pairs| >= 2 && -1.0 <= r.value <= 1.0
                    && leftRoot * rightRoot > 0.0
                    && r.value == Dot(Centered(Ranks(Firsts(pairs))), Centered(Ranks(Seconds(pairs)))) / (leftRoot * rightRoot))
  {
    if |left| != |right| {
      return UnequalLengths;
    }
    var pairs := FinitePairs(left, right);
    if |pairs| < 2 {
      return NoValue(TooFewPairs, |pairs|);
    }
    var leftValues, rightValues := Firsts(pairs), Seconds(pairs);
    if AllEqual(leftValues) || AllEqual(rightValues) {
      return NoValue(ConstantRank, |pairs|);
    }
    var leftRanks := AverageRanks.AverageRanks(leftValues);
    var rightRanks := AverageRanks.AverageRanks(rightValues);
    assert leftRanks == Ranks(leftValues) && rightRanks == Ranks(rightValues);
    r := Ratio(leftRanks, rightRanks, leftRoot, rightRoot, leftValues, rightValues);
  }

  method Ratio(leftRanks: seq<real>, rightRanks: seq<real>, leftRoot: real, rightRoot: real,
               ghost leftValues: seq<real>, ghost rightValues: seq<real>) returns (r: Outcome)
    requires |leftValues| == |rightValues| >= 2 && !AllEqual(leftValues) && !AllEqual(rightValues)
    requires leftRanks == Ranks(leftValues) && rightRanks == Ranks(rightValues)
    requires IsRoot(leftRoot, Spread(leftRanks)) && IsRoot(rightRoot, Spread(rightRanks))
    ensures r.Rho? && r.pairs == |leftValues| && -1.0 <= r.value <= 1.0 && leftRoot * rightRoot > 0.0
    ensures r.value == Dot(Centered(leftRanks), Centered(rightRanks)) / (leftRoot * rightRoot)
  {
    var numerator := Dot(Centered(leftRanks), Centered(rightRanks));
    RanksSpread(leftValues);
    RanksSpread(rightValues);
    CauchySchwarz(Centered(leftRanks), Centered(rightRanks));
    Bounded(numerator, leftRoot, rightRoot, Spread(leftRanks), Spread(rightRanks));
    if leftRoot == 0.0 || rightRoot == 0.0 {
      assert false;
    } else {
      r := Rho(numerator / (leftRoot * rightRoot), |leftRanks|);
    }
  }

  lemma RootIsUnique(a: real, b: real, x: real)
    requires IsRoot(a, x) && IsRoot(b, x)
    ensures a == b
  {
    SquareOrder(a, b);
    SquareOrder(b, a);
  }

  /** Values in the same order correlate perfectly. */
  lemma SameOrderIsPerfect(xs: seq<real>, ys: seq<real>, xRoot: real, yRoot: real)
    requires |xs| >= 2 && SameOrder(xs, ys) && !AllEqual(xs)
    requires IsRoot(xRoot, Spread(Ranks(xs))) && IsRoot(yRoot, Spread(Ranks(ys)))
    ensures xRoot * yRoot > 0.0 && Dot(Centered(Ranks(xs)), Centered(Ranks(ys))) / (xRoot * yRoot) == 1.0
  {
    RanksDependOnOrder(xs, ys);
    RootIsUnique(xRoot, yRoot, Spread(Ranks(xs)));
    RanksSpread(xs);
  }
}
