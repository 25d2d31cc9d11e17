/** The pass@k estimate (Latent-GRPO/eval/eval_high_tasks_sglang.py:672-680), over the reals. */
module PassAtK {
  import opened Options

  /** The number of ways to choose k of n, by Pascal's rule. */
  function Choose(n: nat, k: nat): nat {
    if k == 0 then 1 else if n == 0 then 0 else Choose(n - 1, k - 1) + Choose(n - 1, k)
  }

  lemma {:induction false} ChoosePositive(n: nat, k: nat)
    ensures Choose(n, k) > 0 <==> k <= n
  {
    if n > 0 && k > 0 {
      ChoosePositive(n - 1, k - 1);
      ChoosePositive(n - 1, k);
    }
  }

  /** Choosing a committee of k with a chair: pick the committee first, or the chair first. */
  lemma {:induction false} Chairs(n: nat, k: nat)
    requires n > 0 && k > 0
    ensures k * Choose(n, k) == n * Choose(n - 1, k - 1)
  {
    if n > 1 {
      Chairs(n - 1, k);
      if k > 1 {
        Chairs(n - 1, k - 1);
        ChairsStep(n, k, Choose(n - 1, k - 1), Choose(n - 1, k), Choose(n - 2, k - 2), Choose(n - 2, k - 1));
      }
    }
  }

  lemma ChairsStep(n: nat, k: nat, a: nat, b: nat, c: nat, d: nat)
    requires n > 1 && k > 1 && a == c + d
    requires k * b == (n - 1) * d && (k - 1) * a == (n - 1) * c
    ensures k * (a + b) == n * a
  {
    assert (n - 1) * a == (n - 1) * c + (n - 1) * d;
  }

  /** Leaving out one of n: of the choices of k, a share of (n - k) / n avoids a given element. */
  lemma Avoiding(n: nat, k: nat)
    requires 0 < n && k <= n
    ensures n * Choose(n - 1, k) == (n - k) * Choose(n, k)
  {
    if k > 0 {
      Chairs(n, k);
      assert n * Choose(n, k) == n * Choose(n - 1, k - 1) + n * Choose(n - 1, k);
    }
  }

  /** One more seat: (k + 1) C(m, k + 1) = (m - k) C(m, k). */
  lemma OneMoreSeat(m: nat, k: nat)
    requires k <= m
    ensures (k + 1) * Choose(m, k + 1) == (m - k) * Choose(m, k)
  {
    ChoosePositive(m, k + 1);
    if m > 0 {
      Chairs(m, k + 1);
      Avoiding(m, k);
    }
  }

  /** The chance that k of n samples, c of them correct, drawn without replacement include a correct one. */
  function PassRate(n: nat, c: nat, k: nat): real
    requires k <= n && c <= n
  {
    ChoosePositive(n, k);
    1.0 - Choose(n - c, k) as real / Choose(n, k) as real
  }

  lemma Shrink(product: real, before: nat, after: nat, value: nat, k: nat, base: nat)
    requires value > 0 && k <= value && product * before as real == base as real
    requires value * before == (value - k) * after
    ensures product * (1.0 - k as real / value as real) * after as real == base as real
  {
    var v, b, a := value as real, before as real, after as real;
    assert v * b == (value * before) as real;
    assert (v - k as real) * a == ((value - k) * after) as real;
    assert (1.0 - k as real / v) * v == v - k as real;
    assert v * ((1.0 - k as real / v) * a) == v * b;
    SameFactor(v, (1.0 - k as real / v) * a, b);
    assert product * ((1.0 - k as real / v) * a) == product * (1.0 - k as real / v) * a;
  }

  lemma SameFactor(v: real, x: real, y: real)
    requires v != 0.0 && v * x == v * y
    ensures x == y
  {
    assert x == v * x / v && y == v * y / v;
  }

  lemma Quotient(p: real, x: real, y: real)
    requires x != 0.0 && p * x == y
    ensures p == y / x
  {
  }

  /** The product of the factors of all values below `next`. */
  predicate RunsTo(product: real, next: nat, k: nat, base: nat)
    requires next > 0
  {
    product * Choose(next - 1, k) as real == base as real
  }

  lemma NextFactor(product: real, value: nat, k: nat, base: nat)
    requires 0 < value && k <= value && RunsTo(product, value, k, base)
    ensures RunsTo(product * (1.0 - k as real / value as real), value + 1, k, base)
  {
    Avoiding(value, k);
    Shrink(product, Choose(value - 1, k), Choose(value, k), value, k, base);
  }

  lemma RateFromProduct(n: nat, c: nat, k: nat, product: real)
    requires k <= n && c <= n && RunsTo(product, n + 1, k, Choose(n - c, k))
    ensures PassRate(n, c, k) == 1.0 - product
  {
    ChoosePositive(n, k);
    Quotient(product, Choose(n, k) as real, Choose(n - c, k) as real);
  }

  /** `estimate_pass_at_k`: the running product computes the closed form; too few samples give no estimate. */
  method EstimatePassAtK(numSamples: nat, numCorrect: nat, k: nat) returns (r: Option<real>)
    requires numCorrect <= numSamples
    ensures r.None? <==> numSamples < k
    ensures r.Some? ==> r.value == PassRate(numSamples, numCorrect, k)
  {
    if numSamples < k {
      return None;
    }
    if numSamples - numCorrect < k {
      ChoosePositive(numSamples - numCorrect, k);
      RateFromProduct(numSamples, numCorrect, k, 0.0);
      return Some(1.0);
    }
    var product := 1.0;
    for value := numSamples - numCorrect + 1 to numSamples + 1
      invariant RunsTo(product, value, k, Choose(numSamples - numCorrect, k))
    {
      NextFactor(product, value, k, Choose(numSamples - numCorrect, k));
      product := product * (1.0 - k as real / value as real);
    }
    RateFromProduct(numSamples, numCorrect, k, product);
    r := Some(1.0 - product);
  }

  // ----- what the estimate means -----

  lemma {:induction false} ChooseGrows(m: nat, n: nat, k: nat)
    requires m <= n
    ensures Choose(m, k) <= Choose(n, k)
  {
    if m < n {
      ChooseGrows(m, n - 1, k);
    }
  }

  lemma Fraction(a: nat, b: nat)
    requires a <= b && b > 0
    ensures 0.0 <= a as real / b as real <= 1.0
  {
  }

  /** The estimate is a probability: 1 when fewer than k samples are wrong, and 0 when none is correct. */
  lemma RateIsProbability(n: nat, c: nat, k: nat)
    requires k <= n && c <= n
    ensures 0.0 <= PassRate(n, c, k) <= 1.0
    ensures PassRate(n, c, k) == 1.0 <==> n - c < k
    ensures c == 0 ==> PassRate(n, c, k) == 0.0
  {
    ChoosePositive(n, k);
    ChoosePositive(n - c, k);
    ChooseGrows(n - c, n, k);
    Fraction(Choose(n - c, k), Choose(n, k));
    Quotient(1.0, Choose(n, k) as real, Choose(n, k) as real);
  }

  lemma SmallerFraction(a: nat, b: nat, c: nat, d: nat)
    requires b > 0 && d > 0 && a * d <= c * b
    ensures a as real / b as real <= c as real / d as real
  {
    var p, q := a as real / b as real, c as real / d as real;
    assert p * b as real == a as real && q * d as real == c as real;
    assert (a * d) as real <= (c * b) as real;
    assert p * (b as real * d as real) <= q * (b as real * d as real);
    Cancel(p, q, b as real * d as real);
  }

  lemma Cancel(p: real, q: real, f: real)
    requires f > 0.0 && p * f <= q * f
    ensures p <= q
  {
  }

  /** More correct samples never lower the estimate. */
  lemma RateGrowsWithCorrect(n: nat, c: nat, c': nat, k: nat)
    requires k <= n && c <= c' <= n
    ensures PassRate(n, c, k) <= PassRate(n, c', k)
  {
    ChoosePositive(n, k);
    ChooseGrows(n - c', n - c, k);
    MulMonotone(Choose(n - c', k), Choose(n - c, k), Choose(n, k));
    SmallerFraction(Choose(n - c', k), Choose(n, k), Choose(n - c, k), Choose(n, k));
  }

  lemma MulMonotone(a: nat, b: nat, f: nat)
    requires a <= b
    ensures a * f <= b * f
  {
  }

  /** More draws never lower the estimate. */
  lemma {:induction false} RateGrowsWithDraws(n: nat, c: nat, k: nat, k': nat)
    requires k <= k' <= n && c <= n
    ensures PassRate(n, c, k) <= PassRate(n, c, k')
  {
    if k < k' {
      RateGrowsWithDraws(n, c, k, k' - 1);
      OneMoreDraw(n, n - c, k' - 1);
      ChoosePositive(n, k');
      ChoosePositive(n, k' - 1);
      SmallerFraction(Choose(n - c, k'), Choose(n, k'), Choose(n - c, k' - 1), Choose(n, k' - 1));
    }
  }

  lemma OneMoreDraw(n: nat, m: nat, k: nat)
    requires m <= n && k < n
    ensures Choose(m, k + 1) * Choose(n, k) <= Choose(m, k) * Choose(n, k + 1)
  {
    OneMoreSeat(n, k);
    if k <= m {
      OneMoreSeat(m, k);
      DrawStep(m, n, k, Choose(m, k), Choose(n, k), Choose(m, k + 1), Choose(n, k + 1));
    } else {
      ChoosePositive(m, k + 1);
    }
  }

  lemma DrawStep(m: nat, n: nat, k: nat, a: nat, b: nat, a': nat, b': nat)
    requires k <= m <= n && (k + 1) * a' == (m - k) * a && (k + 1) * b' == (n - k) * b
    ensures a' * b <= a * b'
  {
    assert (k + 1) * (a' * b) == (m - k) * (a * b);
    assert (k + 1) * (a * b') == (n - k) * (a * b);
    MulMonotone(m - k, n - k, a * b);
  }

  lemma {:induction false} ChooseOne(n: nat)
    ensures Choose(n, 1) == n
  {
    if n > 0 {
      ChooseOne(n - 1);
    }
  }

  /** With one draw the estimate is the share of correct samples. */
  lemma OneDrawIsAccuracy(n: nat, c: nat)
    requires 0 < n && c <= n
    ensures PassRate(n, c, 1) == c as real / n as real
  {
    ChooseOne(n);
    ChooseOne(n - c);
    assert (n - c) as real == n as real - c as real;
    var x, y := n as real, c as real;
    assert (1.0 - (x - y) / x) * x == y;
    Quotient(1.0 - (x - y) / x, x, y);
  }
}
