/** Mergeable sufficient statistics (latent_grpo_runner/metrics/aggregators.py:8-89), over the reals.
    A value that is NaN or infinite is `NotFinite`. */
module SufficientStats {
  import opened Options
  import opened Floats
  import opened TensorOps
  import opened Subsequences

  /** One value with its mask and its numerator flag. */
  datatype Sample = Sample(value: Float, included: bool, numerator: bool)

  datatype Stats = Stats(sum: real, sumSq: real, count: nat, nanCount: nat, maskedCount: nat,
                         min: Option<real>, max: Option<real>, numeratorCount: nat)

  const EMPTY := Stats(0.0, 0.0, 0, 0, 0, None, None, 0)

  // ----- what the statistics of some values are -----

  /** The finite values that are not masked out. */
  function Effective(samples: seq<Sample>): seq<real> {
    if samples == [] then []
    else
      var last := samples[|samples| - 1];
      Effective(samples[..|samples| - 1]) + if last.included && last.value.Finite? then [last.value.value] else []
  }

  function CountOf(samples: seq<Sample>, test: Sample -> bool): nat {
    if samples == [] then 0
    else CountOf(samples[..|samples| - 1], test) + if test(samples[|samples| - 1]) then 1 else 0
  }

  function RealSum(xs: seq<real>): real {
    if xs == [] then 0.0 else RealSum(xs[..|xs| - 1]) + xs[|xs| - 1]
  }

  function SquareSum(xs: seq<real>): real {
    if xs == [] then 0.0 else SquareSum(xs[..|xs| - 1]) + xs[|xs| - 1] * xs[|xs| - 1]
  }

  function Lesser(a: Option<real>, b: Option<real>): Option<real> {
    if a.None? then b else if b.None? then a else if b.value < a.value then b else a
  }

  function Greater(a: Option<real>, b: Option<real>): Option<real> {
    if a.None? then b else if b.None? then a else if b.value > a.value then b else a
  }

  function Minimum(xs: seq<real>): Option<real> {
    if xs == [] then None else Lesser(Minimum(xs[..|xs| - 1]), Some(xs[|xs| - 1]))
  }

  function Maximum(xs: seq<real>): Option<real> {
    if xs == [] then None else Greater(Maximum(xs[..|xs| - 1]), Some(xs[|xs| - 1]))
  }

  predicate IsMasked(s: Sample) {
    !s.included
  }

  predicate IsNan(s: Sample) {
    s.included && s.value.NotFinite?
  }

  predicate IsNumerator(s: Sample) {
    s.included && s.value.Finite? && s.numerator
  }

  function Of(samples: seq<Sample>): Stats {
    var finite := Effective(samples);
    Stats(RealSum(finite), SquareSum(finite), |finite|, CountOf(samples, IsNan), CountOf(samples, IsMasked),
          Minimum(finite), Maximum(finite), CountOf(samples, IsNumerator))
  }

  /** zip of values, mask and numerator mask. */
  function Zip(values: seq<Float>, mask: seq<bool>, numerators: seq<bool>): (r: seq<Sample>)
    requires |mask| == |values| == |numerators|
    ensures |r| == |values|
  {
    seq(|values|, i requires 0 <= i < |values| => Sample(values[i], mask[i], numerators[i]))
  }

  /** An absent mask includes every value; an absent numerator mask counts none. */
  function MaskOr(mask: Option<seq<bool>>, n: nat, default: bool): seq<bool> {
    if mask.Some? then mask.value else Copies(default, n)
  }

  /** The values with what the masks say about them: without a mask every value is included, and without a numerator
      mask none is a numerator. */
  function SamplesOf(values: seq<Float>, mask: Option<seq<bool>>, numeratorMask: Option<seq<bool>>): (r: seq<Sample>)
    requires mask.Some? ==> |mask.value| == |values|
    requires numeratorMask.Some? ==> |numeratorMask.value| == |values|
    ensures |r| == |values|
  {
    seq(|values|, i requires 0 <= i < |values| =>
      Sample(values[i], mask.Some? ==> mask.value[i], numeratorMask.Some? && numeratorMask.value[i]))
  }

  lemma {:induction false} CountNone(samples: seq<Sample>, test: Sample -> bool)
    requires forall s | s in samples :: !test(s)
    ensures CountOf(samples, test) == 0
  {
    if samples != [] {
      CountNone(samples[..|samples| - 1], test);
    }
  }

  /** Every value is counted, not finite or masked out. */
  lemma {:induction false} CountsAddUp(samples: seq<Sample>)
    ensures |Effective(samples)| + CountOf(samples, IsNan) + CountOf(samples, IsMasked) == |samples|
    ensures CountOf(samples, IsNumerator) <= |Effective(samples)|
  {
    if samples != [] {
      CountsAddUp(samples[..|samples| - 1]);
    }
  }

  lemma AbsentMasks(values: seq<Float>, mask: Option<seq<bool>>, numeratorMask: Option<seq<bool>>)
    requires mask.Some? ==> |mask.value| == |values|
    requires numeratorMask.Some? ==> |numeratorMask.value| == |values|
    ensures SamplesOf(values, mask, numeratorMask)
            == Zip(values, MaskOr(mask, |values|, true), MaskOr(numeratorMask, |values|, false))
    ensures mask.None? ==> Of(SamplesOf(values, mask, numeratorMask)).maskedCount == 0
    ensures numeratorMask.None? ==> Of(SamplesOf(values, mask, numeratorMask)).numeratorCount == 0
  {
    var samples := SamplesOf(values, mask, numeratorMask);
    if mask.None? {
      CountNone(samples, IsMasked);
    }
    if numeratorMask.None? {
      CountNone(samples, IsNumerator);
    }
  }

  /** `from_values`: unequal lengths are an error. */
  method FromValues(values: seq<Float>, mask: Option<seq<bool>>, numeratorMask: Option<seq<bool>>)
    returns (r: Option<Stats>)
    ensures r.Some? <==> |MaskOr(mask, |values|, true)| == |values| == |MaskOr(numeratorMask, |values|, false)|
    ensures r.Some? ==> r.value == Of(Zip(values, MaskOr(mask, |values|, true), MaskOr(numeratorMask, |values|, false)))
    ensures r.Some? <==>
              (mask.Some? ==> |mask.value| == |values|) && (numeratorMask.Some? ==> |numeratorMask.value| == |values|)
    ensures r.Some? ==> r.value == Of(SamplesOf(values, mask, numeratorMask))
    ensures r.Some? ==> r.value.count + r.value.nanCount + r.value.maskedCount == |values|
    ensures r.Some? && mask.None? ==> r.value.maskedCount == 0
    ensures r.Some? && numeratorMask.None? ==> r.value.numeratorCount == 0
  {
    var maskList, numerators := MaskOr(mask, |values|, true), MaskOr(numeratorMask, |values|, false);
    if |values| != |maskList| || |values| != |numerators| {
      return None;
    }
    ghost var samples := Zip(values, maskList, numerators);
    AbsentMasks(values, mask, numeratorMask);
    CountsAddUp(samples);
    var finite: seq<real> := [];
    var nanCount, maskedCount, numeratorCount := 0, 0, 0;
    for i := 0 to |values|
      invariant finite == Effective(samples[..i])
      invariant nanCount == CountOf(samples[..i], IsNan) && maskedCount == CountOf(samples[..i], IsMasked)
      invariant numeratorCount == CountOf(samples[..i], IsNumerator)
    {
      assert samples[..i + 1][..i] == samples[..i];
      if !maskList[i] {
        maskedCount := maskedCount + 1;
        continue;
      }
      if values[i].NotFinite? {
        nanCount := nanCount + 1;
        continue;
      }
      finite := finite + [values[i].value];
      if numerators[i] {
        numeratorCount := numeratorCount + 1;
      }
    }
    assert samples[..|values|] == samples;
    r := Some(Stats(RealSum(finite), SquareSum(finite), |finite|, nanCount, maskedCount, Minimum(finite),
                    Maximum(finite), numeratorCount));
  }

  // ----- merging -----

  function Merge(a: Stats, b: Stats): Stats {
    Stats(a.sum + b.sum, a.sumSq + b.sumSq, a.count + b.count, a.nanCount + b.nanCount,
          a.maskedCount + b.maskedCount, Lesser(a.min, b.min), Greater(a.max, b.max),
          a.numeratorCount + b.numeratorCount)
  }

  function Merged(all: seq<Stats>): Stats {
    if all == [] then EMPTY else Merge(Merged(all[..|all| - 1]), all[|all| - 1])
  }

  /** `merge_all`. */
  method MergeAll(statistics: seq<Stats>) returns (result: Stats)
    ensures result == Merged(statistics)
  {
    result := EMPTY;
    for i := 0 to |statistics|
      invariant result == Merged(statistics[..i])
    {
      assert statistics[..i + 1][..i] == statistics[..i];
      result := Merge(result, statistics[i]);
    }
    assert statistics[..|statistics|] == statistics;
  }

  lemma MergeLaws(a: Stats, b: Stats, c: Stats)
    ensures Merge(a, b) == Merge(b, a)
    ensures Merge(Merge(a, b), c) == Merge(a, Merge(b, c))
    ensures Merge(EMPTY, a) == a
  {
  }

  lemma {:induction false} EffectiveJoins(a: seq<Sample>, b: seq<Sample>)
    ensures Effective(a + b) == Effective(a) + Effective(b)
  {
    if b == [] {
      assert a + b == a;
    } else {
      EffectiveJoins(a, b[..|b| - 1]);
      assert (a + b)[..|a + b| - 1] == a + b[..|b| - 1];
    }
  }

  lemma {:induction false} CountJoins(a: seq<Sample>, b: seq<Sample>, test: Sample -> bool)
    ensures CountOf(a + b, test) == CountOf(a, test) + CountOf(b, test)
  {
    if b == [] {
      assert a + b == a;
    } else {
      CountJoins(a, b[..|b| - 1], test);
      assert (a + b)[..|a + b| - 1] == a + b[..|b| - 1];
    }
  }

  lemma {:induction false} SumsJoin(xs: seq<real>, ys: seq<real>)
    ensures RealSum(xs + ys) == RealSum(xs) + RealSum(ys)
    ensures SquareSum(xs + ys) == SquareSum(xs) + SquareSum(ys)
  {
    if ys == [] {
      assert xs + ys == xs;
    } else {
      SumsJoin(xs, ys[..|ys| - 1]);
      assert (xs + ys)[..|xs + ys| - 1] == xs + ys[..|ys| - 1];
    }
  }

  lemma {:induction false} ExtremaJoin(xs: seq<real>, ys: seq<real>)
    ensures Minimum(xs + ys) == Lesser(Minimum(xs), Minimum(ys))
    ensures Maximum(xs + ys) == Greater(Maximum(xs), Maximum(ys))
  {
    if ys == [] {
      assert xs + ys == xs;
    } else {
      ExtremaJoin(xs, ys[..|ys| - 1]);
      assert (xs + ys)[..|xs + ys| - 1] == xs + ys[..|ys| - 1];
    }
  }

  /** Merging two statistics gives the statistics of all the values together. */
  lemma MergeIsConcat(a: seq<Sample>, b: seq<Sample>)
    ensures Merge(Of(a), Of(b)) == Of(a + b)
  {
    EffectiveJoins(a, b);
    CountJoins(a, b, IsNan);
    CountJoins(a, b, IsMasked);
    CountJoins(a, b, IsNumerator);
    SumsJoin(Effective(a), Effective(b));
    ExtremaJoin(Effective(a), Effective(b));
  }

  function OfAll(parts: seq<seq<Sample>>): (r: seq<Stats>)
    ensures |r| == |parts| && forall i | 0 <= i < |r| :: r[i] == Of(parts[i])
  {
    seq(|parts|, i requires 0 <= i < |parts| => Of(parts[i]))
  }

  /** However the values are split over workers, merging the workers' statistics gives the statistics of all
      values. */
  lemma {:induction false} MergedIsGlobal(parts: seq<seq<Sample>>)
    ensures Merged(OfAll(parts)) == Of(Flatten(parts))
  {
    if parts == [] {
    } else {
      var n := |parts| - 1;
      MergedIsGlobal(parts[..n]);
      assert OfAll(parts)[..n] == OfAll(parts[..n]);
      MergeIsConcat(Flatten(parts[..n]), parts[n]);
    }
  }

  lemma {:induction false} TakeOut(all: seq<Stats>, i: nat)
    requires i < |all|
    ensures Merged(all) == Merge(Merged(all[..i] + all[i + 1..]), all[i])
  {
    var n := |all| - 1;
    if i == n {
      assert all[..i] + all[i + 1..] == all[..n];
    } else {
      TakeOut(all[..n], i);
      var rest := all[..n][..i] + all[..n][i + 1..];
      assert (all[..i] + all[i + 1..])[..n - 1] == rest;
      MergeLaws(Merged(rest), all[i], all[n]);
      MergeLaws(Merged(rest), all[n], all[i]);
      MergeLaws(all[i], all[n], all[i]);
    }
  }

  lemma FindLast(a: seq<Stats>, b: seq<Stats>, n: nat) returns (i: nat)
    requires multiset(a) == multiset(b) && |a| == n + 1
    ensures i < |b| && b[i] == a[n] && multiset(b[..i] + b[i + 1..]) == multiset(a[..n])
  {
    assert a == a[..n] + [a[n]];
    assert a[n] in multiset(b);
    i :| 0 <= i < |b| && b[i] == a[n];
    WithoutBag(b, i);
    assert multiset(b[..i] + b[i + 1..]) == multiset(b) - multiset{b[i]} == multiset(a[..n]);
  }

  /** The order in which the statistics arrive does not matter. */
  lemma {:induction false} MergedInAnyOrder(a: seq<Stats>, b: seq<Stats>)
    requires multiset(a) == multiset(b)
    ensures Merged(a) == Merged(b)
  {
    if a == [] {
      assert |b| == |multiset(b)| == 0;
    } else {
      var n := |a| - 1;
      var i := FindLast(a, b, n);
      MergedInAnyOrder(a[..n], b[..i] + b[i + 1..]);
      TakeOut(b, i);
    }
  }

  // ----- what every statistic keeps -----

  /** sum^2 <= count * sum_sq. */
  predicate SpreadHolds(sum: real, sumSq: real, count: real) {
    sum * sum <= count * sumSq && sumSq >= 0.0 && (count == 0.0 ==> sum == 0.0 && sumSq == 0.0)
  }

  /** min <= mean <= max, without the division. */
  predicate RangeHolds(min: real, sum: real, max: real, count: real) {
    min * count <= sum <= max * count
  }

  /** The invariant of every statistic. */
  predicate Sound(s: Stats) {
    && SpreadHolds(s.sum, s.sumSq, s.count as real)
    && s.numeratorCount <= s.count
    && (s.min.Some? <==> s.count > 0) && (s.max.Some? <==> s.count > 0)
    && (s.count > 0 ==> RangeHolds(s.min.value, s.sum, s.max.value, s.count as real))
  }

  lemma Squares(x: real)
    ensures x * x >= 0.0
  {
  }

  lemma Times(a: real, b: real, f: real)
    requires a <= b && f >= 0.0
    ensures a * f <= b * f
  {
  }

  lemma CancelFactor(a: real, b: real, f: real)
    requires f > 0.0 && f * a <= f * b
    ensures a <= b
  {
  }

  lemma Young(x: real, y: real)
    ensures 2.0 * (x * y) <= x * x + y * y
  {
    Squares(x - y);
  }

  /** (n s)^2 <= m n (n p) when s^2 <= m p. */
  lemma ScaledSquare(s: real, m: real, n: real, p: real)
    requires s * s <= m * p
    ensures n * s * (n * s) <= m * n * (n * p)
  {
    Squares(n);
    Times(s * s, m * p, n * n);
    assert s * s * (n * n) == n * s * (n * s);
    assert m * p * (n * n) == m * n * (n * p);
  }

  lemma Products(s: real, t: real, m: real, n: real)
    ensures 2.0 * (n * s * (m * t)) == m * n * (2.0 * (s * t))
  {
  }

  /** 2 s t <= m q + n p when s^2 <= m p and t^2 <= n q, for positive m and n. */
  lemma CrossSum(s: real, t: real, m: real, n: real, p: real, q: real)
    requires m > 0.0 && n > 0.0 && s * s <= m * p && t * t <= n * q
    ensures 2.0 * (s * t) <= m * q + n * p
  {
    Young(n * s, m * t);
    Products(s, t, m, n);
    ScaledSquare(s, m, n, p);
    ScaledSquare(t, n, m, q);
    CrossFinish(2.0 * (s * t), m, n, n * p, m * q);
  }

  lemma CrossFinish(x: real, m: real, n: real, y: real, z: real)
    requires m > 0.0 && n > 0.0 && m * n * x <= m * n * y + n * m * z
    ensures x <= z + y
  {
    PositiveFactor(m, n);
    assert m * n * y + n * m * z == m * n * (z + y);
    CancelFactor(x, z + y, m * n);
  }

  lemma PositiveFactor(m: real, n: real)
    requires m > 0.0 && n > 0.0
    ensures m * n > 0.0
  {
  }

  lemma SpreadJoins(s: real, t: real, m: real, n: real, p: real, q: real)
    requires m >= 0.0 && n >= 0.0 && SpreadHolds(s, p, m) && SpreadHolds(t, q, n)
    ensures SpreadHolds(s + t, p + q, m + n)
  {
    if m > 0.0 && n > 0.0 {
      CrossSum(s, t, m, n, p, q);
      assert (s + t) * (s + t) == s * s + 2.0 * (s * t) + t * t;
      assert (m + n) * (p + q) == m * p + (m * q + n * p) + n * q;
    }
  }

  lemma LowerJoins(a: real, b: real, low: real, m: real, n: real, s: real, t: real)
    requires m >= 0.0 && n >= 0.0 && low <= a && low <= b && a * m <= s && b * n <= t
    ensures low * (m + n) <= s + t
  {
    Times(low, a, m);
    Times(low, b, n);
    assert low * (m + n) == low * m + low * n;
  }

  lemma UpperJoins(a: real, b: real, high: real, m: real, n: real, s: real, t: real)
    requires m >= 0.0 && n >= 0.0 && high >= a && high >= b && a * m >= s && b * n >= t
    ensures high * (m + n) >= s + t
  {
    Times(a, high, m);
    Times(b, high, n);
    assert high * (m + n) == high * m + high * n;
  }

  lemma RangeJoins(a: Stats, b: Stats)
    requires a.min.Some? && a.max.Some? && RangeHolds(a.min.value, a.sum, a.max.value, a.count as real)
    requires b.min.Some? && b.max.Some? && RangeHolds(b.min.value, b.sum, b.max.value, b.count as real)
    ensures var low, high := Lesser(a.min, b.min).value, Greater(a.max, b.max).value;
            RangeHolds(low, a.sum + b.sum, high, a.count as real + b.count as real)
  {
    var low, high := Lesser(a.min, b.min).value, Greater(a.max, b.max).value;
    LowerJoins(a.min.value, b.min.value, low, a.count as real, b.count as real, a.sum, b.sum);
    UpperJoins(a.max.value, b.max.value, high, a.count as real, b.count as real, a.sum, b.sum);
  }

  /** Every merge keeps the invariant. */
  lemma MergeKeepsSound(a: Stats, b: Stats)
    requires Sound(a) && Sound(b)
    ensures Sound(Merge(a, b))
  {
    assert (a.count + b.count) as real == a.count as real + b.count as real;
    SpreadJoins(a.sum, b.sum, a.count as real, b.count as real, a.sumSq, b.sumSq);
    if a.count > 0 && b.count > 0 {
      RangeJoins(a, b);
    }
  }

  lemma CountOne(s: Sample, test: Sample -> bool)
    ensures CountOf([s], test) == if test(s) then 1 else 0
  {
    assert [s][..0] == [];
  }

  lemma OneValue(x: real)
    ensures RealSum([x]) == x && SquareSum([x]) == x * x && Minimum([x]) == Some(x) && Maximum([x]) == Some(x)
  {
    assert [x][..0] == [];
  }

  lemma EffectiveOne(s: Sample)
    ensures Effective([s]) == if s.included && s.value.Finite? then [s.value.value] else []
  {
    assert [s][..0] == [];
  }

  lemma OneIsSound(s: Sample)
    ensures Sound(Of([s]))
  {
    EffectiveOne(s);
    CountOne(s, IsNumerator);
    if s.included && s.value.Finite? {
      OneValue(s.value.value);
      Squares(s.value.value);
    }
  }

  /** The statistics of any values are sound. */
  lemma {:induction false} OfIsSound(samples: seq<Sample>)
    ensures Sound(Of(samples))
  {
    if samples != [] {
      var n := |samples| - 1;
      OfIsSound(samples[..n]);
      OneIsSound(samples[n]);
      MergeKeepsSound(Of(samples[..n]), Of([samples[n]]));
      MergeIsConcat(samples[..n], [samples[n]]);
      assert samples == samples[..n] + [samples[n]];
    }
  }

  function Mean(s: Stats): real
    requires s.count > 0
  {
    s.sum / s.count as real
  }

  /** The variance before the clamp. */
  function RawVariance(s: Stats): real
    requires s.count > 0
  {
    s.sumSq / s.count as real - Mean(s) * Mean(s)
  }

  /** The mean times the count is the sum, and n^2 times the variance is n * sum_sq - sum^2. */
  lemma MeasuresMean(s: Stats, n: real, mean: real, variance: real)
    requires s.count > 0 && n == s.count as real && mean == Mean(s) && variance == RawVariance(s)
    ensures mean * n == s.sum && variance * (n * n) == n * s.sumSq - s.sum * s.sum
  {
    VarianceTimes(s.sumSq, s.sum, n, mean, variance);
  }

  lemma VarianceTimes(squares: real, sum: real, n: real, m: real, variance: real)
    requires n > 0.0 && m == sum / n && variance == squares / n - m * m
    ensures m * n == sum && variance * (n * n) == n * squares - sum * sum
  {
    assert m * n == sum && squares / n * n == squares;
    assert variance * (n * n) == squares / n * n * n - m * n * (m * n);
  }

  function Rate(s: Stats): real
    requires s.count > 0
  {
    s.numeratorCount as real / s.count as real
  }

  lemma Divided(a: real, b: real, d: real)
    requires d > 0.0 && a <= b * d
    ensures a / d <= b
  {
    CancelFactor(a / d, b, d);
  }

  lemma DividedBelow(a: real, b: real, d: real)
    requires d > 0.0 && b * d <= a
    ensures b <= a / d
  {
    CancelFactor(b, a / d, d);
  }

  /** Over the reals the variance clamp changes nothing, the mean lies between the extrema and the rate is a
      rate. */
  lemma SoundMeasures(s: Stats)
    requires Sound(s) && s.count > 0
    ensures RawVariance(s) >= 0.0
    ensures s.min.value <= Mean(s) <= s.max.value
    ensures 0.0 <= Rate(s) <= 1.0
  {
    VarianceSign(s);
    Divided(s.sum, s.max.value, s.count as real);
    DividedBelow(s.sum, s.min.value, s.count as real);
    Divided(s.numeratorCount as real, 1.0, s.count as real);
    DividedBelow(s.numeratorCount as real, 0.0, s.count as real);
  }

  lemma VarianceSign(s: Stats)
    requires Sound(s) && s.count > 0
    ensures RawVariance(s) >= 0.0
  {
    var n := s.count as real;
    var mean := s.sum / n;
    assert mean * n == s.sum;
    assert mean * mean * n * n == s.sum * s.sum;
    CancelFactor(mean * mean * n, s.sumSq, n);
    DividedBelow(s.sumSq, mean * mean, n);
  }
}