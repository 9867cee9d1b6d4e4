/**
 * Binomial coefficients and the Bernstein basis (framework/math.js).
 *
 * JavaScript numbers are modelled as mathematical integers for `n` and `k`
 * and as reals for the curve parameter `t`; a NaN argument is the `NaN`
 * constructor of `Number`, and a NaN result is `None`.
 */
module Maths {
  import opened Wrappers

  /** A JavaScript number as the math layer sees it: NaN, or an integer. */
  datatype Number = NaN | Int(value: int)

  /**
   * The binomial coefficient by Pascal's rule: the reference definition that
   * the multiplicative loop of `BinomialCoefficient` is proved against.
   */
  function Choose(n: int, k: int): nat
    decreases n
  {
    if k < 0 || k > n then 0
    else if k == 0 || k == n then 1
    else Choose(n - 1, k - 1) + Choose(n - 1, k)
  }

  /** Pascal's rule holds for every `k` once `n` is positive, the edges included. */
  lemma Pascal(n: int, k: int)
    requires n >= 1
    ensures Choose(n, k) == Choose(n - 1, k - 1) + Choose(n - 1, k)
  {
  }

  /** Symmetry: choosing `k` is choosing the `n - k` left behind. */
  lemma {:induction false} ChooseSymmetric(n: int, k: int)
    ensures Choose(n, k) == Choose(n, n - k)
    decreases n
  {
    if 0 < k < n {
      ChooseSymmetric(n - 1, k - 1);
      ChooseSymmetric(n - 1, k);
    }
  }

  /** The shortcut of the source: one element, or all but one, can be chosen in `n` ways. */
  lemma {:induction false} ChooseNearEdges(n: int)
    requires n >= 1
    ensures Choose(n, 1) == n && Choose(n, n - 1) == n
    decreases n
  {
    if n > 1 {
      ChooseNearEdges(n - 1);
    }
    ChooseSymmetric(n, 1);
  }

  /**
   * The branches of `binomialCoefficient`, as facts about `C(n, k)`: 0 out of
   * range, 1 at both edges, `n` one step inside either edge, and symmetric.
   */
  lemma ChooseCases(n: int, k: int)
    ensures k < 0 || k > n ==> Choose(n, k) == 0
    ensures 0 <= n && (k == 0 || k == n) ==> Choose(n, k) == 1
    ensures 1 <= n && (k == 1 || k == n - 1) ==> Choose(n, k) == n
    ensures Choose(n, k) == Choose(n, n - k)
  {
    ChooseSymmetric(n, k);
    if 1 <= n {
      ChooseNearEdges(n);
    }
  }

  /** The arithmetic behind one step of `ChooseAbsorb`, with the coefficients as plain integers. */
  lemma AbsorbArithmetic(n: int, k: int, a: int, b: int, c: int, d: int)
    requires k * b == (n - 1) * d && (k - 1) * a == (n - 1) * c && a == c + d
    ensures k * (a + b) == n * a
  {
    calc {
      k * (a + b);
      k * a + k * b;
      (k - 1) * a + a + (n - 1) * d;
      (n - 1) * c + a + (n - 1) * d;
      (n - 1) * (c + d) + a;
      n * a;
    }
  }

  /** The absorption identity `k * C(n, k) == n * C(n - 1, k - 1)`. */
  lemma {:induction false} ChooseAbsorb(n: int, k: int)
    requires 1 <= k <= n
    ensures k * Choose(n, k) == n * Choose(n - 1, k - 1)
    decreases n
  {
    if k < n {
      ChooseAbsorb(n - 1, k);
      // (k - 1) * C(n - 1, k - 1) == (n - 1) * C(n - 2, k - 2), trivially when k == 1
      if k > 1 {
        ChooseAbsorb(n - 1, k - 1);
      }
      Pascal(n - 1, k - 1);
      AbsorbArithmetic(n, k, Choose(n - 1, k - 1), Choose(n - 1, k), Choose(n - 2, k - 2), Choose(n - 2, k - 1));
    }
  }

  /** One step of the source's loop: `C(n, i) == C(n, i - 1) * (n - i + 1) / i`, multiplied out. */
  lemma ChooseStep(n: int, i: int)
    requires 1 <= i <= n
    ensures i * Choose(n, i) == (n - i + 1) * Choose(n, i - 1)
  {
    ChooseAbsorb(n, i);
    ChooseSymmetric(n, i - 1);
    ChooseAbsorb(n, n - i + 1);
    ChooseSymmetric(n - 1, i - 1);
  }

  /**
   * Exact real division undoes the integer identity of `ChooseStep`: from
   * `res == c0 == C(n, i - 1)`, multiplying by `(n - i + 1) / i` gives `c1 == C(n, i)`.
   */
  lemma DivideStep(n: int, i: int, res: real, c0: int, c1: int)
    requires 1 <= i <= n && i * c1 == (n - i + 1) * c0 && res == c0 as real
    ensures res * ((n - i + 1) as real / i as real) == c1 as real
  {
    assert (i as real) * (c1 as real) == ((n - i + 1) as real) * (c0 as real);
  }

  /** `Math.round`: the nearest integer, halves rounded up. */
  function Round(x: real): int
  {
    (x + 0.5).Floor
  }

  /**
   * `binomialCoefficient(n, k)`: NaN for a NaN argument, otherwise the edge
   * cases first and then the multiplicative loop, rounded. Over the reals the
   * loop is exact, so the result is always `C(n, k)`.
   */
  method BinomialCoefficient(n: Number, k: Number) returns (r: Option<int>)
    ensures r.None? <==> n.NaN? || k.NaN?
    ensures r.Some? ==> r.value == Choose(n.value, k.value)
  {
    if n.NaN? || k.NaN? {
      return None;
    }
    var n, k := n.value, k.value;
    if k < 0 || k > n {
      return Some(0);
    }
    if k == 0 || k == n {
      return Some(1);
    }
    if k == 1 || k == n - 1 {
      ChooseNearEdges(n);
      return Some(n);
    }
    ChooseNearEdges(n);
    var res: real := n as real;
    var i := 2;
    while i <= k
      invariant 2 <= i <= k + 1
      invariant res == Choose(n, i - 1) as real
    {
      ChooseStep(n, i);
      DivideStep(n, i, res, Choose(n, i - 1), Choose(n, i));
      res := res * ((n - i + 1) as real / i as real);
      i := i + 1;
    }
    return Some(Round(res));
  }

  /** `x` multiplied by itself `e` times (the empty product is 1). */
  function RepeatedProduct(x: real, e: nat): real
  {
    if e == 0 then 1.0 else x * RepeatedProduct(x, e - 1)
  }

  /**
   * `Math.pow` for a natural exponent (with `0^0 == 1`). Kept apart from the
   * recursion so that the formulas built on it compare as plain terms.
   */
  function Pow(x: real, e: nat): real
  {
    RepeatedProduct(x, e)
  }

  /** A power of a non-negative number is non-negative. */
  lemma {:induction false} PowNonNegative(x: real, e: nat)
    requires x >= 0.0
    ensures Pow(x, e) >= 0.0
  {
    if e > 0 {
      PowNonNegative(x, e - 1);
    }
  }

  /** Every power of 1 is 1. */
  lemma {:induction false} PowOfOne(e: nat)
    ensures Pow(1.0, e) == 1.0
  {
    if e > 0 {
      PowOfOne(e - 1);
    }
  }

  /** `C(n, k)` as a real: the coefficient of a weight. */
  function Coefficient(n: int, k: int): real
  {
    Choose(n, k) as real
  }

  /**
   * `bersnstein(n, k, t)`: the Bernstein weight `C(n, k) (1 - t)^(n - k) t^k`.
   * `t` is not clamped. Outside `0 <= k <= n` the coefficient is 0 and so is the weight.
   */
  function Bernstein(n: int, k: int, t: real): real
  {
    if k < 0 || k > n then 0.0
    else Coefficient(n, k) * Pow(1.0 - t, n - k) * Pow(t, k)
  }

  /** On the parameter range `0 <= t <= 1` no weight is negative. */
  lemma BernsteinNonNegative(n: int, k: int, t: real)
    requires 0.0 <= t <= 1.0
    ensures Bernstein(n, k, t) >= 0.0
  {
    if 0 <= k <= n {
      PowNonNegative(1.0 - t, n - k);
      PowNonNegative(t, k);
    }
  }

  /** At `t = 0` only the first weight is non-zero, and it is 1. */
  lemma BernsteinAtZero(n: int, k: int)
    requires 0 <= k <= n
    ensures Bernstein(n, k, 0.0) == if k == 0 then 1.0 else 0.0
  {
    PowOfOne(n - k);
  }

  /** At `t = 1` only the last weight is non-zero, and it is 1. */
  lemma BernsteinAtOne(n: int, k: int)
    requires 0 <= k <= n
    ensures Bernstein(n, k, 1.0) == if k == n then 1.0 else 0.0
  {
    PowOfOne(k);
  }

  /** Reversing the parameter reverses the basis. */
  lemma BernsteinSymmetric(n: int, k: int, t: real)
    ensures Bernstein(n, k, t) == Bernstein(n, n - k, 1.0 - t)
  {
    ChooseSymmetric(n, k);
  }

  /** One factor peeled off a power with a positive exponent. */
  lemma PowStep(x: real, e: int)
    requires e >= 1
    ensures Pow(x, e) == x * Pow(x, e - 1)
  {
  }

  /** Pascal's rule for the real coefficients, at an inner index. */
  lemma CoefficientPascal(n: int, k: int)
    requires 0 < k < n
    ensures Coefficient(n, k) == Coefficient(n - 1, k - 1) + Coefficient(n - 1, k)
  {
  }

  /** An inner weight split by Pascal's rule into two terms that share both powers. */
  lemma BernsteinPascal(n: int, k: int, t: real)
    requires 0 < k < n
    ensures Bernstein(n, k, t) == Coefficient(n - 1, k) * Pow(1.0 - t, n - k) * Pow(t, k) + Coefficient(n - 1, k - 1) * Pow(1.0 - t, n - k) * Pow(t, k)
  {
    CoefficientPascal(n, k);
  }

  /** `(1 - t) B(n - 1, k, t)` raises the power of `1 - t` to that of `B(n, k, t)`. */
  lemma ScaledLowerSame(n: int, k: int, t: real)
    requires 0 < k < n
    ensures (1.0 - t) * Bernstein(n - 1, k, t) == Coefficient(n - 1, k) * Pow(1.0 - t, n - k) * Pow(t, k)
  {
    PowStep(1.0 - t, n - k);
  }

  /** `t B(n - 1, k - 1, t)` raises the power of `t` to that of `B(n, k, t)`. */
  lemma ScaledLowerPrev(n: int, k: int, t: real)
    requires 0 < k < n
    ensures t * Bernstein(n - 1, k - 1, t) == Coefficient(n - 1, k - 1) * Pow(1.0 - t, n - k) * Pow(t, k)
  {
    PowStep(t, k);
  }

  /** The recurrence for an inner index `0 < k < n`: Pascal's rule times the shared powers. */
  lemma BernsteinRecurrenceInner(n: int, k: int, t: real)
    requires 0 < k < n
    ensures Bernstein(n, k, t) == (1.0 - t) * Bernstein(n - 1, k, t) + t * Bernstein(n - 1, k - 1, t)
  {
    ScaledLowerSame(n, k, t);
    ScaledLowerPrev(n, k, t);
    BernsteinPascal(n, k, t);
  }

  /**
   * The recurrence in the comment beside `bersnstein`:
   * `B(n, k, t) == (1 - t) B(n - 1, k, t) + t B(n - 1, k - 1, t)`, for every `k`.
   */
  lemma BernsteinRecurrence(n: int, k: int, t: real)
    requires n >= 1
    ensures Bernstein(n, k, t) == (1.0 - t) * Bernstein(n - 1, k, t) + t * Bernstein(n - 1, k - 1, t)
  {
    if k == 0 {
      assert Bernstein(n, k, t) == Pow(1.0 - t, n);
      assert Bernstein(n - 1, k, t) == Pow(1.0 - t, n - 1);
    } else if k == n {
      assert Bernstein(n, k, t) == Pow(t, n);
      assert Bernstein(n - 1, k - 1, t) == Pow(t, n - 1);
    } else if 0 < k < n {
      BernsteinRecurrenceInner(n, k, t);
    }
  }

  /** The basis of degree `n` at `t`: the weights `B(n, 0, t), ..., B(n, n, t)`, in index order. */
  function Weights(n: nat, t: real): (w: seq<real>)
    ensures |w| == n + 1
  {
    seq(n + 1, k => Bernstein(n, k, t))
  }

  /** The sum of a sequence of reals, accumulated from the first element to the last. */
  function Sum(s: seq<real>): real
  {
    if s == [] then 0.0 else Sum(s[..|s| - 1]) + s[|s| - 1]
  }

  /** A leading zero does not change a sum. */
  lemma {:induction false} SumPrependZero(s: seq<real>)
    ensures Sum([0.0] + s) == Sum(s)
  {
    if s != [] {
      assert ([0.0] + s)[..|s|] == [0.0] + s[..|s| - 1];
      SumPrependZero(s[..|s| - 1]);
    }
  }

  /** The linear combination `u x + t y`. */
  function Combine(u: real, x: real, t: real, y: real): real
  {
    u * x + t * y
  }

  /** `a` combines `p` and `q` element by element: `a[k] == u p[k] + t q[k]` at every index. */
  ghost predicate IsCombination(a: seq<real>, p: seq<real>, q: seq<real>, u: real, t: real)
  {
    |a| == |p| == |q| && forall k :: 0 <= k < |a| ==> a[k] == Combine(u, p[k], t, q[k])
  }

  /** Prefixes of an element-wise combination are one too. */
  lemma CombinationOfPrefixes(a: seq<real>, p: seq<real>, q: seq<real>, u: real, t: real, m: nat)
    requires IsCombination(a, p, q, u, t) && m <= |a|
    ensures IsCombination(a[..m], p[..m], q[..m], u, t)
  {
    forall k | 0 <= k < m
      ensures a[..m][k] == Combine(u, p[..m][k], t, q[..m][k])
    {
      assert a[..m][k] == a[k] && p[..m][k] == p[k] && q[..m][k] == q[k];
    }
  }

  /** One step of `SumOfCombinedSeqs`: extending all three sums by one element keeps the combination. */
  lemma CombinationStep(u: real, t: real, sa: real, am: real, sp: real, pm: real, sq: real, qm: real)
    requires sa == Combine(u, sp, t, sq) && am == Combine(u, pm, t, qm)
    ensures sa + am == Combine(u, sp + pm, t, sq + qm)
  {
  }

  /** A sequence combining two others element by element sums to that combination of their sums. */
  lemma {:induction false} SumOfCombinedSeqs(a: seq<real>, p: seq<real>, q: seq<real>, u: real, t: real)
    requires IsCombination(a, p, q, u, t)
    ensures Sum(a) == Combine(u, Sum(p), t, Sum(q))
  {
    if a != [] {
      var m := |a| - 1;
      CombinationOfPrefixes(a, p, q, u, t, m);
      SumOfCombinedSeqs(a[..m], p[..m], q[..m], u, t);
      assert a[m] == Combine(u, p[m], t, q[m]);
      CombinationStep(u, t, Sum(a[..m]), a[m], Sum(p[..m]), p[m], Sum(q[..m]), q[m]);
    }
  }

  /** The weights of degree `n - 1` padded with a zero at the end (index `n` is out of range). */
  function LowerWeightsAtSameIndex(n: nat, t: real): (w: seq<real>)
    requires n >= 1
    ensures |w| == n + 1
  {
    seq(n + 1, k => Bernstein(n - 1, k, t))
  }

  /** The zero padding adds nothing to the sum. */
  lemma LowerWeightsAtSameIndexSum(n: nat, t: real)
    requires n >= 1
    ensures Sum(LowerWeightsAtSameIndex(n, t)) == Sum(Weights(n - 1, t))
  {
    var p := LowerWeightsAtSameIndex(n, t);
    assert p[..n] == Weights(n - 1, t);
  }

  /** The weights of degree `n - 1` shifted one place right (index `-1` is out of range). */
  function LowerWeightsAtPreviousIndex(n: nat, t: real): (w: seq<real>)
    requires n >= 1
    ensures |w| == n + 1
  {
    seq(n + 1, k => Bernstein(n - 1, k - 1, t))
  }

  /** Shifting by a zero adds nothing to the sum. */
  lemma LowerWeightsAtPreviousIndexSum(n: nat, t: real)
    requires n >= 1
    ensures Sum(LowerWeightsAtPreviousIndex(n, t)) == Sum(Weights(n - 1, t))
  {
    assert LowerWeightsAtPreviousIndex(n, t) == [0.0] + Weights(n - 1, t);
    SumPrependZero(Weights(n - 1, t));
  }

  /** The recurrence at every index of the basis, with the lower weights padded or shifted to length `n + 1`. */
  lemma WeightsAreBlends(n: nat, t: real)
    requires n >= 1
    ensures IsCombination(Weights(n, t), LowerWeightsAtSameIndex(n, t), LowerWeightsAtPreviousIndex(n, t), 1.0 - t, t)
  {
    forall k | 0 <= k <= n
      ensures Weights(n, t)[k] == Combine(1.0 - t, LowerWeightsAtSameIndex(n, t)[k], t, LowerWeightsAtPreviousIndex(n, t)[k])
    {
      BernsteinRecurrenceCombined(n, k, t);
    }
  }

  /** `BernsteinRecurrence` written with `Combine`, the form the element-wise statements use. */
  lemma BernsteinRecurrenceCombined(n: int, k: int, t: real)
    requires n >= 1
    ensures Bernstein(n, k, t) == Combine(1.0 - t, Bernstein(n - 1, k, t), t, Bernstein(n - 1, k - 1, t))
  {
    BernsteinRecurrence(n, k, t);
  }

  /** Blending a value with itself gives it back. */
  lemma BlendOfSame(t: real, s: real)
    ensures Combine(1.0 - t, s, t, s) == s
  {
  }

  /** Summing the recurrence over all indices: the total weight does not depend on the degree. */
  lemma WeightsSumRecurrence(n: nat, t: real)
    requires n >= 1
    ensures Sum(Weights(n, t)) == Sum(Weights(n - 1, t))
  {
    WeightsAreBlends(n, t);
    SumOfCombinedSeqs(Weights(n, t), LowerWeightsAtSameIndex(n, t), LowerWeightsAtPreviousIndex(n, t), 1.0 - t, t);
    LowerWeightsAtSameIndexSum(n, t);
    LowerWeightsAtPreviousIndexSum(n, t);
    BlendOfSame(t, Sum(Weights(n - 1, t)));
  }

  /** Partition of unity: the weights of any degree sum to exactly 1, for every real `t`. */
  lemma {:induction false} PartitionOfUnity(n: nat, t: real)
    ensures Sum(Weights(n, t)) == 1.0
  {
    if n == 0 {
      assert Weights(n, t) == [1.0];
    } else {
      WeightsSumRecurrence(n, t);
      PartitionOfUnity(n - 1, t);
    }
  }

  /** The absorption identity over the reals. */
  lemma ChooseAbsorbReal(n: nat, k: int)
    requires 1 <= k <= n
    ensures (k as real) * Coefficient(n, k) == (n as real) * Coefficient(n - 1, k - 1)
  {
    ChooseAbsorb(n, k);
    AbsorbCasts(n, k);
  }

  /** Both sides of the absorption identity, converted to reals factor by factor. */
  lemma AbsorbCasts(n: int, k: int)
    ensures (k * Choose(n, k)) as real == (k as real) * Coefficient(n, k)
    ensures (n * Choose(n - 1, k - 1)) as real == (n as real) * Coefficient(n - 1, k - 1)
  {
    ScaledCoefficient(k, n, k);
    ScaledCoefficient(n, n - 1, k - 1);
  }

  /** Converting `a C(n, k)` to a real scales the real coefficient. */
  lemma ScaledCoefficient(a: int, n: int, k: int)
    ensures (a * Choose(n, k)) as real == (a as real) * Coefficient(n, k)
  {
  }

  /** `k B(n, k, t)` with `k C(n, k)` replaced by `n C(n - 1, k - 1)`. */
  lemma UpperAbsorbed(n: nat, k: int, t: real)
    requires 1 <= k <= n
    ensures k as real * Bernstein(n, k, t) == n as real * Coefficient(n - 1, k - 1) * Pow(1.0 - t, n - k) * Pow(t, k)
  {
    ChooseAbsorbReal(n, k);
  }

  /** `n t B(n - 1, k - 1, t)` with the factor `t` moved into the power of `t`. */
  lemma LowerScaled(n: nat, k: int, t: real)
    requires 1 <= k <= n
    ensures n as real * t * Bernstein(n - 1, k - 1, t) == n as real * Coefficient(n - 1, k - 1) * Pow(1.0 - t, n - k) * Pow(t, k)
  {
    PowStep(t, k);
  }

  /** `IndexTimesBernstein` for an index in range: both sides share every factor but `k C(n, k) == n C(n - 1, k - 1)`. */
  lemma IndexTimesBernsteinInner(n: nat, k: int, t: real)
    requires 1 <= k <= n
    ensures k as real * Bernstein(n, k, t) == n as real * t * Bernstein(n - 1, k - 1, t)
  {
    UpperAbsorbed(n, k, t);
    LowerScaled(n, k, t);
  }

  /** The absorption identity carried to the basis: `k B(n, k, t) == n t B(n - 1, k - 1, t)`. */
  lemma IndexTimesBernstein(n: nat, k: int, t: real)
    requires n >= 1
    ensures k as real * Bernstein(n, k, t) == n as real * t * Bernstein(n - 1, k - 1, t)
  {
    if 1 <= k <= n {
      IndexTimesBernsteinInner(n, k, t);
    } else {
      assert Bernstein(n - 1, k - 1, t) == 0.0;
      assert k == 0 || Bernstein(n, k, t) == 0.0;
    }
  }

  /** The basis weighted by its own index: `k B(n, k, t)` for `k = 0 .. n`. */
  function IndexWeights(n: nat, t: real): (w: seq<real>)
    ensures |w| == n + 1
  {
    seq(n + 1, k => k as real * Bernstein(n, k, t))
  }

  /**
   * Each index-weighted entry is `n t` times the lower-degree weight one place to the
   * left (zero at `k = 0`), written as a combination with no share of the padded weights.
   */
  lemma IndexWeightsAreShiftedWeights(n: nat, t: real)
    requires n >= 1
    ensures IsCombination(IndexWeights(n, t), LowerWeightsAtSameIndex(n, t), LowerWeightsAtPreviousIndex(n, t), 0.0, n as real * t)
  {
    forall k | 0 <= k <= n
      ensures IndexWeights(n, t)[k] == Combine(0.0, LowerWeightsAtSameIndex(n, t)[k], n as real * t, LowerWeightsAtPreviousIndex(n, t)[k])
    {
      IndexWeightAt(n, t, k);
      IndexTimesBernsteinCombined(n, k, t);
    }
  }

  /** One entry of `IndexWeights`. */
  lemma IndexWeightAt(n: nat, t: real, k: nat)
    requires k <= n
    ensures IndexWeights(n, t)[k] == k as real * Bernstein(n, k, t)
    ensures IndexWeights(n, t)[k] == k as real * Weights(n, t)[k]
  {
  }

  /** `iw` weights each entry of `w` by its own index. */
  ghost predicate IsIndexWeighting(iw: seq<real>, w: seq<real>)
  {
    |iw| == |w| && forall k :: 0 <= k < |w| ==> iw[k] == k as real * w[k]
  }

  /** Each index-weighted entry is its index times the weight at that index. */
  lemma IndexWeightsScaleWeights(n: nat, t: real)
    ensures IsIndexWeighting(IndexWeights(n, t), Weights(n, t))
  {
    forall k | 0 <= k < |Weights(n, t)|
      ensures IndexWeights(n, t)[k] == k as real * Weights(n, t)[k]
    {
      IndexWeightAt(n, t, k);
    }
  }

  /** `IndexTimesBernstein` written with `Combine`, with no share of the padded lower weight. */
  lemma IndexTimesBernsteinCombined(n: nat, k: int, t: real)
    requires n >= 1
    ensures k as real * Bernstein(n, k, t) == Combine(0.0, Bernstein(n - 1, k, t), n as real * t, Bernstein(n - 1, k - 1, t))
  {
    IndexTimesBernstein(n, k, t);
  }

  /** A combination with no share of `x` and all of a unit `y` is the second coefficient. */
  lemma CombineWithUnit(x: real, d: real)
    ensures Combine(0.0, x, d, 1.0) == d
  {
  }

  /**
   * The mean index of the basis is `n t`: `sum over k of k B(n, k, t) == n t`,
   * for every real `t` (the mean of the binomial distribution when `0 <= t <= 1`).
   */
  lemma MeanIndex(n: nat, t: real)
    ensures Sum(IndexWeights(n, t)) == n as real * t
  {
    if n == 0 {
      assert IndexWeights(n, t) == [0.0];
    } else {
      var e, p, q := IndexWeights(n, t), LowerWeightsAtSameIndex(n, t), LowerWeightsAtPreviousIndex(n, t);
      IndexWeightsAreShiftedWeights(n, t);
      SumOfCombinedSeqs(e, p, q, 0.0, n as real * t);
      LowerWeightsAtPreviousIndexSum(n, t);
      PartitionOfUnity(n - 1, t);
      CombineWithUnit(Sum(p), n as real * t);
    }
  }
}
