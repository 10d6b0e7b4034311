/** The first four moments of the residence-time distribution about the origin,
    α_k = Σ θ^k ψ / Σ ψ (data_processing.py, calculate_moments). */
module MomentCalculator {
  import opened WeightedSums
  import opened TracerData

  /** The moments α1 … α4 of the reduced residence-time distribution. */
  datatype Moments = Moments(alpha1: real, alpha2: real, alpha3: real, alpha4: real)

  /** A series whose moments can be formed: a valid apparatus, a well-formed table
      and a total reduced concentration that is not zero (it is the divisor). */
  predicate Measurable(a: Apparatus, s: Series)
  {
    ValidApparatus(a) && WellFormed(s) && Sum(Psi(a, s)) != 0.0
  }

  /** α_k, the k-th power sum of θ under the weights ψ normalised by the total weight;
      it is the elementwise Σ θ_i^k ψ_i / Σ ψ_i. */
  function Moment(theta: seq<real>, psi: seq<real>, k: nat): (alpha: real)
    requires |theta| == |psi| && Sum(psi) != 0.0
    ensures alpha * Sum(psi) == Sum(Products(Powers(theta, k), psi))
  {
    PowerSumElementwise(theta, psi, k);
    Ratio(PowerSum(theta, psi, k), Sum(psi))
  }

  /** The quotient p / s, kept as one term so that equal arguments give equal moments
      by congruence alone. */
  function Ratio(p: real, s: real): real
    requires s != 0.0
  {
    p / s
  }

  /** The first four moments of the points theta under the weights psi. */
  function MomentsOf(theta: seq<real>, psi: seq<real>): Moments
    requires |theta| == |psi| && Sum(psi) != 0.0
  {
    Moments(Moment(theta, psi, 1), Moment(theta, psi, 2), Moment(theta, psi, 3), Moment(theta, psi, 4))
  }

  /** The four moments of a measured series: those of the reduced times under the
      reduced concentrations. */
  function CalculateMoments(a: Apparatus, s: Series): Moments
    requires Measurable(a, s)
  {
    MomentsOf(Theta(a, s), Psi(a, s))
  }

  /** With a positive divisor, bounds on the dividend scale down to bounds on the quotient. */
  lemma RatioBounds(lo: real, hi: real, p: real, total: real)
    requires 0.0 < total && lo * total <= p <= hi * total
    ensures lo <= Ratio(p, total) <= hi
  {
  }

  /** A dividend that is not negative over a positive divisor gives a quotient that is not negative. */
  lemma RatioNonNegative(p: real, total: real)
    requires 0.0 < total && 0.0 <= p
    ensures 0.0 <= Ratio(p, total)
  {
  }

  /** With non-negative concentrations, every moment is a weighted mean of the θ_i^k:
      it lies between any lower and any upper bound of those powers. */
  lemma MomentBounds(theta: seq<real>, psi: seq<real>, k: nat, lo: real, hi: real)
    requires |theta| == |psi| && NonNegative(psi) && 0.0 < Sum(psi)
    requires forall i :: 0 <= i < |theta| ==> lo <= Pow(theta[i], k) <= hi
    ensures lo <= Moment(theta, psi, k) <= hi
  {
    PowersBounded(theta, psi, k, lo, hi);
    RatioBounds(lo, hi, PowerSum(theta, psi, k), Sum(psi));
  }

  lemma PowersBounded(theta: seq<real>, psi: seq<real>, k: nat, lo: real, hi: real)
    requires |theta| == |psi| && NonNegative(psi)
    requires forall i :: 0 <= i < |theta| ==> lo <= Pow(theta[i], k) <= hi
    ensures lo * Sum(psi) <= PowerSum(theta, psi, k) <= hi * Sum(psi)
  {
    PowerSumElementwise(theta, psi, k);
    WeightedAtLeast(Powers(theta, k), psi, lo);
    WeightedAtMost(Powers(theta, k), psi, hi);
  }

  /** Sampling times and concentrations that are not negative give a mean reduced
      residence time α1 that is not negative. */
  lemma MeanResidenceTimeNonNegative(a: Apparatus, s: Series)
    requires Measurable(a, s) && NonNegative(s.t) && NonNegative(s.cind)
    ensures 0.0 <= CalculateMoments(a, s).alpha1
  {
    var theta, psi := Theta(a, s), Psi(a, s);
    ThetaNonNegative(a, s);
    PsiNonNegative(a, s);
    SumNonNegative(psi);
    PowerSumNonNegative(theta, psi, 1);
    RatioNonNegative(PowerSum(theta, psi, 1), Sum(psi));
  }

  /** With concentrations that are not negative, the even moments α2 and α4 are not
      negative whatever the sign of the times. */
  lemma EvenMomentsNonNegative(a: Apparatus, s: Series)
    requires Measurable(a, s) && NonNegative(s.cind)
    ensures 0.0 <= CalculateMoments(a, s).alpha2 && 0.0 <= CalculateMoments(a, s).alpha4
  {
    var theta, psi := Theta(a, s), Psi(a, s);
    PsiNonNegative(a, s);
    SumNonNegative(psi);
    EvenPowerSumNonNegative(theta, psi, 2);
    EvenPowerSumNonNegative(theta, psi, 4);
    RatioNonNegative(PowerSum(theta, psi, 2), Sum(psi));
    RatioNonNegative(PowerSum(theta, psi, 4), Sum(psi));
  }

  /** Scaling every concentration by the same non-zero factor leaves each moment unchanged. */
  lemma MomentScaleInvariant(theta: seq<real>, psi: seq<real>, c: real, k: nat)
    requires |theta| == |psi| && Sum(psi) != 0.0 && c != 0.0
    ensures Sum(Scale(c, psi)) != 0.0
    ensures Moment(theta, Scale(c, psi), k) == Moment(theta, psi, k)
  {
    ScaledSums(theta, psi, c, k);
  }

  lemma ScaledSums(theta: seq<real>, psi: seq<real>, c: real, k: nat)
    requires |theta| == |psi| && Sum(psi) != 0.0 && c != 0.0
    ensures Sum(Scale(c, psi)) != 0.0
    ensures Ratio(PowerSum(theta, Scale(c, psi), k), Sum(Scale(c, psi))) == Ratio(PowerSum(theta, psi, k), Sum(psi))
  {
    SumScale(c, psi);
    PowerSumScale(theta, psi, c, k);
    CancelCommonFactor(PowerSum(theta, Scale(c, psi), k), Sum(Scale(c, psi)), PowerSum(theta, psi, k), Sum(psi), c);
  }

  /** A common non-zero factor cancels from a quotient. */
  lemma CancelCommonFactor(p': real, s': real, p: real, s: real, c: real)
    requires c != 0.0 && s != 0.0 && p' == c * p && s' == c * s
    ensures s' != 0.0 && Ratio(p', s') == Ratio(p, s)
  {
  }

  /** The conversion factor V / Q cancels between numerator and divisor: at a fixed τ
      the moments depend neither on the volume nor on the tracer mass. */
  lemma MomentsIndependentOfVolumeAndTracerMass(a: Apparatus, b: Apparatus, s: Series)
    requires Measurable(a, s) && ValidApparatus(b) && b.tau == a.tau
    ensures Measurable(b, s)
    ensures CalculateMoments(b, s) == CalculateMoments(a, s)
  {
    PsiRescaled(a, b, s);
    var theta, psi, c := Theta(a, s), Psi(a, s), (b.volume / b.tracerMass) / (a.volume / a.tracerMass);
    MomentScaleInvariant(theta, psi, c, 1);
    MomentScaleInvariant(theta, psi, c, 2);
    MomentScaleInvariant(theta, psi, c, 3);
    MomentScaleInvariant(theta, psi, c, 4);
  }

  /** The reduced concentrations of two apparatuses differ by the ratio of their V / Q factors. */
  lemma PsiRescaled(a: Apparatus, b: Apparatus, s: Series)
    requires ValidApparatus(a) && ValidApparatus(b)
    ensures Psi(b, s) == Scale((b.volume / b.tracerMass) / (a.volume / a.tracerMass), Psi(a, s))
  {
    forall i | 0 <= i < |s.cind|
      ensures Psi(b, s)[i] == Scale((b.volume / b.tracerMass) / (a.volume / a.tracerMass), Psi(a, s))[i]
    {
      RatioStep(b.volume / b.tracerMass, a.volume / a.tracerMass, s.cind[i]);
    }
  }

  lemma RatioStep(p: real, q: real, x: real)
    requires q != 0.0
    ensures p * x == (p / q) * (q * x)
  {
  }
}
