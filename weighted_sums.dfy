/** Finite sums over sequences of reals: the vectorised `np.sum` reductions the
    analysis performs, and the facts about weighted sums that the moment,
    variance and simplified-method proofs share.

    A weighted power sum Σ x_i^k · w_i is defined by absorbing one factor x_i into
    the weights at a time, Σ x^k w = Σ x^(k-1) (x w). Every identity between power
    sums is then a statement about sums of weight vectors, and the algebra of a
    single element is done in a small lemma about plain numbers. */
module WeightedSums {

  /** The sum of a sequence (order is irrelevant over the reals). */
  function Sum(s: seq<real>): real
  {
    if |s| == 0 then 0.0 else s[0] + Sum(s[1..])
  }

  /** x to the natural power k. */
  function Pow(x: real, k: nat): real
  {
    if k == 0 then 1.0 else x * Pow(x, k - 1)
  }

  predicate NonNegative(s: seq<real>)
  {
    forall i :: 0 <= i < |s| ==> 0.0 <= s[i]
  }

  /** The elementwise powers x_i^k. */
  function Powers(x: seq<real>, k: nat): (p: seq<real>)
    ensures |p| == |x|
    ensures forall i :: 0 <= i < |x| ==> p[i] == Pow(x[i], k)
  {
    seq(|x|, i requires 0 <= i < |x| => Pow(x[i], k))
  }

  /** The elementwise deviations x_i − c. */
  function Deviations(x: seq<real>, c: real): (d: seq<real>)
    ensures |d| == |x|
    ensures forall i :: 0 <= i < |x| ==> d[i] == x[i] - c
  {
    seq(|x|, i requires 0 <= i < |x| => x[i] - c)
  }

  /** The elementwise product c · w. */
  function Scale(c: real, w: seq<real>): (r: seq<real>)
    ensures |r| == |w|
    ensures forall i :: 0 <= i < |w| ==> r[i] == c * w[i]
  {
    seq(|w|, i requires 0 <= i < |w| => c * w[i])
  }

  /** The elementwise products f_i · w_i. */
  function Products(f: seq<real>, w: seq<real>): (r: seq<real>)
    requires |f| == |w|
    ensures |r| == |f|
    ensures forall i :: 0 <= i < |f| ==> r[i] == f[i] * w[i]
  {
    seq(|f|, i requires 0 <= i < |f| => f[i] * w[i])
  }

  /** Σ x_i^k · w_i, the unnormalised k-th moment of the points x under weights w. */
  function PowerSum(x: seq<real>, w: seq<real>, k: nat): real
    requires |x| == |w|
    decreases k
  {
    if k == 0 then Sum(w) else PowerSum(x, Products(x, w), k - 1)
  }

  /** Σ (x_i − c)^k · w_i, the unnormalised k-th moment about the centre c. */
  function CentralSum(x: seq<real>, w: seq<real>, c: real, k: nat): real
    requires |x| == |w|
  {
    PowerSum(Deviations(x, c), w, k)
  }

  /** v is the mean that a sum `total` has over the weight w: v · w = total. Kept as one
      named fact so that proofs can match it without arithmetic. */
  predicate MeanOf(v: real, w: real, total: real)
  {
    v * w == total
  }

  /** 0 < r, kept as one named fact: the solver rewrites a bare 0 < x · x into x ≠ 0 and
      then cannot use it for a term equal to x · x. */
  predicate Positive(r: real)
  {
    0.0 < r
  }

  /** The square of a number that is not zero is positive. */
  lemma SquarePositive(x: real)
    requires x != 0.0
    ensures Positive(x * x)
  {
    if x < 0.0 {
      assert x * x == (-x) * (-x);
    }
  }

  /** The mean of a sum over a positive weight that does not exceed the sum is at least 1. */
  lemma MeanAtLeastOne(v: real, w: real, total: real)
    requires Positive(w) && w <= total && MeanOf(v, w, total)
    ensures 1.0 <= v
  {
  }

  /** a − c · b, kept as one term so that identities between sums stay linear in form. */
  function MinusScaled(a: real, c: real, b: real): real
  {
    a - c * b
  }

  lemma MulNonNegative(a: real, b: real)
    requires 0.0 <= a && 0.0 <= b
    ensures 0.0 <= a * b
  {}

  // ---------------------------------------------------------------------------
  // Plain sums: order, linearity.

  /** Sum is monotone in every element. */
  lemma {:induction false} SumMonotone(a: seq<real>, b: seq<real>)
    requires |a| == |b|
    requires forall i :: 0 <= i < |a| ==> a[i] <= b[i]
    ensures Sum(a) <= Sum(b)
  {
    if |a| > 0 {
      SumMonotone(a[1..], b[1..]);
    }
  }

  lemma {:induction false} SumNonNegative(s: seq<real>)
    requires NonNegative(s)
    ensures 0.0 <= Sum(s)
  {
    if |s| > 0 {
      SumNonNegative(s[1..]);
    }
  }

  /** The sum of two sequences added elementwise is the sum of their sums. */
  lemma {:induction false} SumOfPairwise(a: seq<real>, b: seq<real>, r: seq<real>)
    requires |a| == |b| == |r|
    requires forall i :: 0 <= i < |r| ==> r[i] == a[i] + b[i]
    ensures Sum(r) == Sum(a) + Sum(b)
  {
    if |r| > 0 {
      SumOfPairwise(a[1..], b[1..], r[1..]);
    }
  }

  lemma AffineStep(s: real, a: real, b: real, f0: real, a0: real, b0: real, tf: real, ta: real, tb: real,
                   c: real)
    requires f0 == MinusScaled(a0, c, b0) && tf == MinusScaled(ta, c, tb)
    requires a == a0 + ta && b == b0 + tb && s == f0 + tf
    ensures s == MinusScaled(a, c, b)
  {}

  /** Sum is linear: f = a − c·b elementwise gives Σf = Σa − c·Σb. */
  lemma {:induction false} SumAffine(f: seq<real>, a: seq<real>, b: seq<real>, c: real)
    requires |f| == |a| == |b|
    requires forall i :: 0 <= i < |f| ==> f[i] == a[i] - c * b[i]
    ensures Sum(f) == MinusScaled(Sum(a), c, Sum(b))
  {
    if |f| > 0 {
      assert forall i :: 0 <= i < |f| - 1 ==> f[1..][i] == a[1..][i] - c * b[1..][i];
      SumAffine(f[1..], a[1..], b[1..], c);
      AffineStep(Sum(f), Sum(a), Sum(b), f[0], a[0], b[0], Sum(f[1..]), Sum(a[1..]), Sum(b[1..]), c);
    }
  }

  lemma ScaleTail(c: real, h: seq<real>)
    requires |h| > 0
    ensures Scale(c, h)[1..] == Scale(c, h[1..])
  {
    assert forall i :: 0 <= i < |h| - 1 ==> Scale(c, h)[1..][i] == Scale(c, h[1..])[i];
  }

  lemma ScaleStep(c: real, s: real, h0: real, t: real, st: real)
    requires s == h0 + t && st == c * t
    ensures c * h0 + st == c * s
  {}

  /** Scaling every element by c scales the sum by c. */
  lemma {:induction false} SumScale(c: real, h: seq<real>)
    ensures Sum(Scale(c, h)) == c * Sum(h)
  {
    if |h| > 0 {
      ScaleTail(c, h);
      SumScale(c, h[1..]);
      ScaleStep(c, Sum(h), h[0], Sum(h[1..]), Sum(Scale(c, h[1..])));
    }
  }

  // ---------------------------------------------------------------------------
  // Weighted power sums.

  lemma PowStep(y: real, k: nat, v: real, p: real)
    requires k > 0 && p == Pow(y, k - 1)
    ensures p * (y * v) == Pow(y, k) * v
  {}

  lemma PowersZero(x: seq<real>, w: seq<real>)
    requires |x| == |w|
    ensures Products(Powers(x, 0), w) == w
  {
    assert forall i :: 0 <= i < |x| ==> Products(Powers(x, 0), w)[i] == w[i];
  }

  /** Absorbing one factor into the weights lowers the power by one. */
  lemma PowersAbsorb(x: seq<real>, w: seq<real>, k: nat)
    requires |x| == |w| && k > 0
    ensures Products(Powers(x, k - 1), Products(x, w)) == Products(Powers(x, k), w)
  {
    forall i | 0 <= i < |x|
      ensures Products(Powers(x, k - 1), Products(x, w))[i] == Products(Powers(x, k), w)[i]
    {
      PowStep(x[i], k, w[i], Pow(x[i], k - 1));
    }
  }

  /** The recursive definition agrees with the elementwise reading Σ x_i^k · w_i. */
  lemma {:induction false} PowerSumElementwise(x: seq<real>, w: seq<real>, k: nat)
    requires |x| == |w|
    ensures PowerSum(x, w, k) == Sum(Products(Powers(x, k), w))
    decreases k
  {
    if k == 0 {
      PowersZero(x, w);
    } else {
      PowerSumElementwise(x, Products(x, w), k - 1);
      PowersAbsorb(x, w, k);
    }
  }

  lemma AbsorbStep(y: real, a: real, b: real, c: real)
    ensures y * (a - c * b) == y * a - c * (y * b)
  {}

  lemma AffineRename(p: real, q: real, r: real, p': real, q': real, r': real, c: real)
    requires p == p' && q == q' && r == r' && p' == MinusScaled(q', c, r')
    ensures p == MinusScaled(q, c, r)
  {}

  /** A power sum is linear in its weights: f = a − c·b elementwise gives
      Σ x^k f = Σ x^k a − c · Σ x^k b. */
  lemma {:induction false} PowerSumAffine(x: seq<real>, f: seq<real>, a: seq<real>, b: seq<real>, c: real,
                                          k: nat)
    requires |x| == |f| == |a| == |b|
    requires forall i :: 0 <= i < |f| ==> f[i] == a[i] - c * b[i]
    ensures PowerSum(x, f, k) == MinusScaled(PowerSum(x, a, k), c, PowerSum(x, b, k))
    decreases k
  {
    if k == 0 {
      SumAffine(f, a, b, c);
    } else {
      var f', a', b' := Products(x, f), Products(x, a), Products(x, b);
      forall i | 0 <= i < |f|
        ensures f'[i] == a'[i] - c * b'[i]
      {
        AbsorbStep(x[i], a[i], b[i], c);
      }
      PowerSumAffine(x, f', a', b', c, k - 1);
      AffineRename(PowerSum(x, f, k), PowerSum(x, a, k), PowerSum(x, b, k),
        PowerSum(x, f', k - 1), PowerSum(x, a', k - 1), PowerSum(x, b', k - 1), c);
    }
  }

  /** Scaling the weights before absorbing a factor is scaling after it. */
  lemma ProductsScale(x: seq<real>, w: seq<real>, c: real)
    requires |x| == |w|
    ensures Products(x, Scale(c, w)) == Scale(c, Products(x, w))
  {
    forall i | 0 <= i < |x|
      ensures Products(x, Scale(c, w))[i] == Scale(c, Products(x, w))[i]
    {
      assert x[i] * (c * w[i]) == c * (x[i] * w[i]);
    }
  }

  /** Scaling every weight by c scales every power sum by c. */
  lemma {:induction false} PowerSumScale(x: seq<real>, w: seq<real>, c: real, k: nat)
    requires |x| == |w|
    ensures PowerSum(x, Scale(c, w), k) == c * PowerSum(x, w, k)
    decreases k
  {
    if k == 0 {
      SumScale(c, w);
    } else {
      ProductsScale(x, w, c);
      PowerSumScale(x, Products(x, w), c, k - 1);
      assert PowerSum(x, Scale(c, w), k) == PowerSum(x, Scale(c, Products(x, w)), k - 1);
      assert PowerSum(x, w, k) == PowerSum(x, Products(x, w), k - 1);
    }
  }

  /** With non-negative points and weights every power sum is non-negative. */
  lemma {:induction false} PowerSumNonNegative(x: seq<real>, w: seq<real>, k: nat)
    requires |x| == |w| && NonNegative(x) && NonNegative(w)
    ensures 0.0 <= PowerSum(x, w, k)
    decreases k
  {
    if k == 0 {
      SumNonNegative(w);
    } else {
      forall i | 0 <= i < |x|
        ensures 0.0 <= Products(x, w)[i]
      {
        MulNonNegative(x[i], w[i]);
      }
      PowerSumNonNegative(x, Products(x, w), k - 1);
    }
  }

  /** With non-negative weights, a lower bound on every f_i bounds the weighted sum. */
  lemma WeightedAtLeast(f: seq<real>, w: seq<real>, lo: real)
    requires |f| == |w| && NonNegative(w)
    requires forall i :: 0 <= i < |f| ==> lo <= f[i]
    ensures lo * Sum(w) <= Sum(Products(f, w))
  {
    forall i | 0 <= i < |f|
      ensures Scale(lo, w)[i] <= Products(f, w)[i]
    {
      MulNonNegative(f[i] - lo, w[i]);
      assert Scale(lo, w)[i] == lo * w[i] && Products(f, w)[i] == f[i] * w[i];
    }
    SumMonotone(Scale(lo, w), Products(f, w));
    SumScale(lo, w);
  }

  /** With non-negative weights, an upper bound on every f_i bounds the weighted sum. */
  lemma WeightedAtMost(f: seq<real>, w: seq<real>, hi: real)
    requires |f| == |w| && NonNegative(w)
    requires forall i :: 0 <= i < |f| ==> f[i] <= hi
    ensures Sum(Products(f, w)) <= hi * Sum(w)
  {
    forall i | 0 <= i < |f|
      ensures Products(f, w)[i] <= Scale(hi, w)[i]
    {
      MulNonNegative(hi - f[i], w[i]);
      assert Scale(hi, w)[i] == hi * w[i] && Products(f, w)[i] == f[i] * w[i];
    }
    SumMonotone(Products(f, w), Scale(hi, w));
    SumScale(hi, w);
  }

  // ---------------------------------------------------------------------------
  // Central sums in terms of raw power sums.

  /** The binomial expansion of Σ w (x − c)² in terms of the raw sums s_k = Σ w x^k. */
  function QuadraticAbout(c: real, s2: real, s1: real, s0: real): real
  {
    s2 + (-2.0 * c) * s1 + (c * c) * s0
  }

  /** The binomial expansion of Σ w (x − c)⁴ in terms of the raw sums s_k = Σ w x^k. */
  function QuarticAbout(c: real, s4: real, s3: real, s2: real, s1: real, s0: real): real
  {
    s4 + (-4.0 * c) * s3 + (6.0 * c * c) * s2 + (-4.0 * c * c * c) * s1 + (c * c * c * c) * s0
  }

  /** Σ x_i^j (x_i − c)^k w_i: j raw factors absorbed into the weights, then the central
      sum of order k. It interpolates between the raw sums (k = 0) and the central sums (j = 0). */
  function MixedSum(x: seq<real>, w: seq<real>, c: real, j: nat, k: nat): real
    requires |x| == |w|
    decreases j
  {
    if j == 0 then CentralSum(x, w, c, k) else MixedSum(x, Products(x, w), c, j - 1, k)
  }

  lemma DeviationStep(y: real, c: real, v: real)
    ensures (y - c) * v == y * v - c * v
  {}

  /** One central factor split off: Σ (x−c)^(k+1) w = Σ (x−c)^k (x w) − c Σ (x−c)^k w. */
  lemma CentralSumStep(x: seq<real>, w: seq<real>, c: real, k: nat)
    requires |x| == |w|
    ensures CentralSum(x, w, c, k + 1) == MinusScaled(CentralSum(x, Products(x, w), c, k), c, CentralSum(x, w, c, k))
  {
    var d := Deviations(x, c);
    forall i | 0 <= i < |x|
      ensures Products(d, w)[i] == Products(x, w)[i] - c * w[i]
    {
      DeviationStep(x[i], c, w[i]);
    }
    PowerSumAffine(d, Products(d, w), Products(x, w), w, c, k);
  }

  /** The recurrence that trades one central factor for a raw one. */
  lemma {:induction false} MixedRecurrence(x: seq<real>, w: seq<real>, c: real, j: nat, k: nat)
    requires |x| == |w|
    ensures MixedSum(x, w, c, j, k + 1) == MinusScaled(MixedSum(x, w, c, j + 1, k), c, MixedSum(x, w, c, j, k))
    decreases j
  {
    if j == 0 {
      CentralSumStep(x, w, c, k);
    } else {
      MixedRecurrence(x, Products(x, w), c, j - 1, k);
    }
  }

  /** With no central factor, the mixed sum is the raw power sum. */
  lemma {:induction false} MixedSumRaw(x: seq<real>, w: seq<real>, c: real, j: nat)
    requires |x| == |w|
    ensures MixedSum(x, w, c, j, 0) == PowerSum(x, w, j)
    decreases j
  {
    if j > 0 {
      MixedSumRaw(x, Products(x, w), c, j - 1);
    }
  }

  lemma TwoStepsArithmetic(c: real, m20: real, m10: real, m00: real, m11: real, m01: real, m02: real)
    requires m11 == MinusScaled(m20, c, m10) && m01 == MinusScaled(m10, c, m00)
    requires m02 == MinusScaled(m11, c, m01)
    ensures m02 == QuadraticAbout(c, m20, m10, m00)
  {}

  /** Two central factors traded for raw ones. */
  lemma MixedTwoSteps(x: seq<real>, w: seq<real>, c: real, j: nat, k: nat)
    requires |x| == |w|
    ensures MixedSum(x, w, c, j, k + 2)
         == QuadraticAbout(c, MixedSum(x, w, c, j + 2, k), MixedSum(x, w, c, j + 1, k), MixedSum(x, w, c, j, k))
  {
    MixedRecurrence(x, w, c, j + 1, k);
    MixedRecurrence(x, w, c, j, k);
    MixedRecurrence(x, w, c, j, k + 1);
    TwoStepsArithmetic(c, MixedSum(x, w, c, j + 2, k), MixedSum(x, w, c, j + 1, k), MixedSum(x, w, c, j, k),
      MixedSum(x, w, c, j + 1, k + 1), MixedSum(x, w, c, j, k + 1), MixedSum(x, w, c, j, k + 2));
  }

  lemma QuarticOfQuadratics(c: real, s4: real, s3: real, s2: real, s1: real, s0: real, q2: real, q1: real, q0: real,
                            e: real)
    requires q2 == QuadraticAbout(c, s4, s3, s2) && q1 == QuadraticAbout(c, s3, s2, s1)
    requires q0 == QuadraticAbout(c, s2, s1, s0)
    requires e == QuadraticAbout(c, q2, q1, q0)
    ensures e == QuarticAbout(c, s4, s3, s2, s1, s0)
  {}

  /** Four central factors traded for raw ones. */
  lemma MixedFourSteps(x: seq<real>, w: seq<real>, c: real, j: nat, k: nat)
    requires |x| == |w|
    ensures MixedSum(x, w, c, j, k + 4)
         == QuarticAbout(c, MixedSum(x, w, c, j + 4, k), MixedSum(x, w, c, j + 3, k), MixedSum(x, w, c, j + 2, k),
                         MixedSum(x, w, c, j + 1, k), MixedSum(x, w, c, j, k))
  {
    MixedTwoSteps(x, w, c, j, k + 2);
    MixedTwoSteps(x, w, c, j + 2, k);
    MixedTwoSteps(x, w, c, j + 1, k);
    MixedTwoSteps(x, w, c, j, k);
    QuarticOfQuadratics(c, MixedSum(x, w, c, j + 4, k), MixedSum(x, w, c, j + 3, k), MixedSum(x, w, c, j + 2, k),
      MixedSum(x, w, c, j + 1, k), MixedSum(x, w, c, j, k),
      MixedSum(x, w, c, j + 2, k + 2), MixedSum(x, w, c, j + 1, k + 2), MixedSum(x, w, c, j, k + 2),
      MixedSum(x, w, c, j, k + 4));
  }

  /** The second central sum expands into raw power sums. */
  lemma CentralSum2Expand(x: seq<real>, w: seq<real>, c: real)
    requires |x| == |w|
    ensures CentralSum(x, w, c, 2) == QuadraticAbout(c, PowerSum(x, w, 2), PowerSum(x, w, 1), Sum(w))
  {
    MixedTwoSteps(x, w, c, 0, 0);
    MixedSumRaw(x, w, c, 2);
    MixedSumRaw(x, w, c, 1);
    MixedSumRaw(x, w, c, 0);
  }

  /** The fourth central sum expands into raw power sums. */
  lemma CentralSum4Expand(x: seq<real>, w: seq<real>, c: real)
    requires |x| == |w|
    ensures CentralSum(x, w, c, 4)
         == QuarticAbout(c, PowerSum(x, w, 4), PowerSum(x, w, 3), PowerSum(x, w, 2), PowerSum(x, w, 1), Sum(w))
  {
    MixedFourSteps(x, w, c, 0, 0);
    MixedSumRaw(x, w, c, 4);
    MixedSumRaw(x, w, c, 3);
    MixedSumRaw(x, w, c, 2);
    MixedSumRaw(x, w, c, 1);
    MixedSumRaw(x, w, c, 0);
  }

  // ---------------------------------------------------------------------------
  // Even central sums and the Cauchy–Schwarz bound.

  /** Two absorbed copies of the same factor keep the weights non-negative. */
  lemma SquareAbsorbNonNegative(d: seq<real>, w: seq<real>)
    requires |d| == |w| && NonNegative(w)
    ensures NonNegative(Products(d, Products(d, w)))
  {
    forall i | 0 <= i < |d|
      ensures 0.0 <= Products(d, Products(d, w))[i]
    {
      assert d[i] * (d[i] * w[i]) == (d[i] * d[i]) * w[i];
      MulNonNegative(d[i] * d[i], w[i]);
    }
  }

  /** Even power sums under non-negative weights are non-negative, whatever the sign of the points. */
  lemma {:induction false} EvenPowerSumNonNegative(x: seq<real>, w: seq<real>, k: nat)
    requires |x| == |w| && NonNegative(w) && k % 2 == 0
    ensures 0.0 <= PowerSum(x, w, k)
    decreases k
  {
    if k == 0 {
      SumNonNegative(w);
    } else {
      SquareAbsorbNonNegative(x, w);
      EvenPowerSumNonNegative(x, Products(x, Products(x, w)), k - 2);
    }
  }

  /** The expanded second central sum is non-negative for every centre c. */
  lemma ExpandedSpreadNonNegative(x: seq<real>, w: seq<real>, c: real)
    requires |x| == |w| && NonNegative(w)
    ensures 0.0 <= QuadraticAbout(c, PowerSum(x, w, 2), PowerSum(x, w, 1), Sum(w))
  {
    CentralSum2Expand(x, w, c);
    EvenPowerSumNonNegative(Deviations(x, c), w, 2);
  }

  lemma SpreadNonNegativeEverywhere(x: seq<real>, w: seq<real>)
    requires |x| == |w| && NonNegative(w)
    ensures forall c: real :: 0.0 <= QuadraticAbout(c, PowerSum(x, w, 2), PowerSum(x, w, 1), Sum(w))
  {
    forall c: real
      ensures 0.0 <= QuadraticAbout(c, PowerSum(x, w, 2), PowerSum(x, w, 1), Sum(w))
    {
      ExpandedSpreadNonNegative(x, w, c);
    }
  }

  /** s1² ≤ s0 · s2: the Cauchy–Schwarz inequality between the sums s0 = Σ w, s1 = Σ x w
      and s2 = Σ x² w. */
  predicate CauchyBound(s0: real, s1: real, s2: real)
  {
    s1 * s1 <= s0 * s2
  }

  /** A quadratic in c that is never negative has a non-positive discriminant. */
  lemma CauchyArithmetic(s0: real, s1: real, s2: real)
    requires 0.0 < s0
    requires forall c: real :: 0.0 <= QuadraticAbout(c, s2, s1, s0)
    ensures CauchyBound(s0, s1, s2)
  {
    var c := s1 / s0;
    var spread := QuadraticAbout(c, s2, s1, s0);
    assert c * s0 == s1;
    assert s0 * spread == s0 * s2 - 2.0 * s1 * (c * s0) + (c * s0) * (c * s0);
    MulNonNegative(s0, spread);
  }

  /** Cauchy–Schwarz for a weighted sum: (Σ x w)² ≤ Σ w · Σ x² w when the weights are
      non-negative with positive total. */
  lemma WeightedCauchy(x: seq<real>, w: seq<real>)
    requires |x| == |w| && NonNegative(w) && 0.0 < Sum(w)
    ensures CauchyBound(Sum(w), PowerSum(x, w, 1), PowerSum(x, w, 2))
  {
    SpreadNonNegativeEverywhere(x, w);
    CauchyArithmetic(Sum(w), PowerSum(x, w, 1), PowerSum(x, w, 2));
  }

  /** The squared deviations (x_i − c)². */
  function SquaredDeviations(x: seq<real>, c: real): seq<real>
  {
    Products(Deviations(x, c), Deviations(x, c))
  }

  /** Absorbing a squared factor once is absorbing the plain factor twice. */
  lemma SquareAbsorb(d: seq<real>, w: seq<real>)
    requires |d| == |w|
    ensures Products(Products(d, d), w) == Products(d, Products(d, w))
  {
    forall i | 0 <= i < |d|
      ensures Products(Products(d, d), w)[i] == Products(d, Products(d, w))[i]
    {
      assert (d[i] * d[i]) * w[i] == d[i] * (d[i] * w[i]);
    }
  }

  /** The k-th power sum of the squares d_i² is the 2k-th power sum of d. */
  lemma {:induction false} PowerSumOfSquares(d: seq<real>, w: seq<real>, k: nat, k2: nat)
    requires |d| == |w| && k2 == 2 * k
    ensures PowerSum(Products(d, d), w, k) == PowerSum(d, w, k2)
    decreases k
  {
    if k > 0 {
      SquareAbsorb(d, w);
      PowerSumOfSquares(d, Products(Products(d, d), w), k - 1, k2 - 2);
      assert PowerSum(d, w, k2) == PowerSum(d, Products(d, Products(d, w)), k2 - 2);
    }
  }

  /** The first power sum of the squared deviations is the second central sum. */
  lemma SquaredDeviationSum(x: seq<real>, w: seq<real>, c: real)
    requires |x| == |w|
    ensures PowerSum(SquaredDeviations(x, c), w, 1) == CentralSum(x, w, c, 2)
  {
    PowerSumOfSquares(Deviations(x, c), w, 1, 2);
  }

  /** The second power sum of the squared deviations is the fourth central sum. */
  lemma SquaredDeviationSquareSum(x: seq<real>, w: seq<real>, c: real)
    requires |x| == |w|
    ensures PowerSum(SquaredDeviations(x, c), w, 2) == CentralSum(x, w, c, 4)
  {
    PowerSumOfSquares(Deviations(x, c), w, 2, 4);
  }
}
