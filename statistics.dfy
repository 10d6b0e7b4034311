/** Descriptive statistics of the residence-time distribution
    (data_processing.py, calculate_statistics): the mode and the density at the
    mode, the variance α2 − α1² and the kurtosis
    (α4 − 4 α3 α1 + 6 α2 α1² − 3 α1⁴) / variance². */
module StatisticsCalculator {
  import opened WeightedSums
  import opened TracerData
  import opened MomentCalculator

  /** The statistics reported for one experiment (the skewness is not modelled). */
  datatype Statistics = Statistics(mode: real, modalDensity: real, variance: real, kurtosis: real)

  /** The index of the first largest value, as numpy's argmax returns it. */
  function ArgMax(psi: seq<real>): (idx: nat)
    requires |psi| > 0
    ensures idx < |psi|
    ensures forall j :: 0 <= j < |psi| ==> psi[j] <= psi[idx]
    ensures forall j :: 0 <= j < idx ==> psi[j] < psi[idx]
  {
    if |psi| == 1 then 0
    else
      var k := ArgMax(psi[..|psi| - 1]);
      if psi[k] < psi[|psi| - 1] then |psi| - 1 else k
  }

  /** The variance α2 − α1². */
  function Variance(m: Moments): real
  {
    m.alpha2 - m.alpha1 * m.alpha1
  }

  /** The numerator of the kurtosis, α4 − 4 α3 α1 + 6 α2 α1² − 3 α1⁴. */
  function KurtosisNumerator(m: Moments): real
  {
    m.alpha4 - 4.0 * m.alpha3 * m.alpha1 + 6.0 * m.alpha2 * (m.alpha1 * m.alpha1)
      - 3.0 * (m.alpha1 * m.alpha1 * m.alpha1 * m.alpha1)
  }

  /** The kurtosis: the numerator over the squared variance, which must not be zero. */
  function Kurtosis(m: Moments): (kurt: real)
    requires Variance(m) != 0.0
    ensures kurt * (Variance(m) * Variance(m)) == KurtosisNumerator(m)
  {
    KurtosisNumerator(m) / (Variance(m) * Variance(m))
  }

  /** A series whose statistics can be formed: np.max and np.argmax need at least one row. */
  predicate Describable(a: Apparatus, s: Series)
  {
    ValidApparatus(a) && WellFormed(s) && |s.cind| > 0
  }

  /** The statistics of a series from the moments handed in (which the caller may
      have rounded). The mode is the reduced time of the first row at which the
      reduced concentration is largest, and the modal density is that concentration. */
  function CalculateStatistics(a: Apparatus, s: Series, m: Moments): (st: Statistics)
    requires Describable(a, s) && Variance(m) != 0.0
    ensures exists j :: 0 <= j < |s.cind| && st.mode == Theta(a, s)[j] && st.modalDensity == Psi(a, s)[j] &&
                        (forall i :: 0 <= i < j ==> Psi(a, s)[i] < st.modalDensity)
    ensures forall i :: 0 <= i < |s.cind| ==> Psi(a, s)[i] <= st.modalDensity
    ensures st.variance == Variance(m)
    ensures st.kurtosis * (st.variance * st.variance) == KurtosisNumerator(m)
  {
    var theta, psi := Theta(a, s), Psi(a, s);
    var idx := ArgMax(psi);
    Statistics(theta[idx], psi[idx], Variance(m), Kurtosis(m))
  }

  // ---------------------------------------------------------------------------
  // The variance and the kurtosis numerator of exact moments are central sums.

  /** With p1 = α1 s and p2 = α2 s, the quadratic expansion about α1 is (α2 − α1²) s. */
  lemma VarianceArithmetic(m: Moments, p1: real, p2: real, s: real, c2: real)
    requires s != 0.0 && m.alpha1 == Ratio(p1, s) && m.alpha2 == Ratio(p2, s)
    requires c2 == QuadraticAbout(m.alpha1, p2, p1, s)
    ensures MeanOf(Variance(m), s, c2)
  {
    assert p1 == m.alpha1 * s && p2 == m.alpha2 * s;
  }

  /** With p_k = α_k s, the quartic expansion about α1 is the kurtosis numerator times s. */
  lemma KurtosisArithmetic(m: Moments, p1: real, p2: real, p3: real, p4: real, s: real, c4: real)
    requires s != 0.0 && m.alpha1 == Ratio(p1, s) && m.alpha2 == Ratio(p2, s)
    requires m.alpha3 == Ratio(p3, s) && m.alpha4 == Ratio(p4, s)
    requires c4 == QuarticAbout(m.alpha1, p4, p3, p2, p1, s)
    ensures MeanOf(KurtosisNumerator(m), s, c4)
  {
    assert p1 == m.alpha1 * s && p2 == m.alpha2 * s && p3 == m.alpha3 * s && p4 == m.alpha4 * s;
  }

  /** The variance of the exact moments is the ψ-weighted mean of the squared deviations
      from α1: variance · Σ ψ_i = Σ (θ_i − α1)² ψ_i. */
  lemma VarianceIsCentralSpread(theta: seq<real>, psi: seq<real>)
    requires |theta| == |psi| && Sum(psi) != 0.0
    ensures MeanOf(Variance(MomentsOf(theta, psi)), Sum(psi), CentralSum(theta, psi, MomentsOf(theta, psi).alpha1, 2))
  {
    var m := MomentsOf(theta, psi);
    CentralSum2Expand(theta, psi, m.alpha1);
    VarianceArithmetic(m, PowerSum(theta, psi, 1), PowerSum(theta, psi, 2), Sum(psi),
      CentralSum(theta, psi, m.alpha1, 2));
  }

  /** The kurtosis numerator of the exact moments is the ψ-weighted mean of the fourth
      powers of the deviations from α1: numerator · Σ ψ_i = Σ (θ_i − α1)⁴ ψ_i. */
  lemma KurtosisNumeratorIsCentral(theta: seq<real>, psi: seq<real>)
    requires |theta| == |psi| && Sum(psi) != 0.0
    ensures MeanOf(KurtosisNumerator(MomentsOf(theta, psi)), Sum(psi), CentralSum(theta, psi, MomentsOf(theta, psi).alpha1, 4))
  {
    var m := MomentsOf(theta, psi);
    CentralSum4Expand(theta, psi, m.alpha1);
    KurtosisArithmetic(m, PowerSum(theta, psi, 1), PowerSum(theta, psi, 2), PowerSum(theta, psi, 3),
      PowerSum(theta, psi, 4), Sum(psi), CentralSum(theta, psi, m.alpha1, 4));
  }

  /** The mean of a sum that is not negative over a positive weight is not negative. */
  lemma MeanSign(v: real, w: real, total: real)
    requires MeanOf(v, w, total) && 0.0 < w && 0.0 <= total
    ensures 0.0 <= v
  {
  }

  /** With concentrations that are not negative, the variance of the exact moments is
      not negative. */
  lemma VarianceNonNegative(theta: seq<real>, psi: seq<real>)
    requires |theta| == |psi| && NonNegative(psi) && 0.0 < Sum(psi)
    ensures 0.0 <= Variance(MomentsOf(theta, psi))
  {
    var m := MomentsOf(theta, psi);
    VarianceIsCentralSpread(theta, psi);
    EvenPowerSumNonNegative(Deviations(theta, m.alpha1), psi, 2);
    MeanSign(Variance(m), Sum(psi), CentralSum(theta, psi, m.alpha1, 2));
  }

  /** Cauchy–Schwarz on the squared deviations: the second central sum squared is at most
      the total weight times the fourth central sum. */
  lemma CentralSumsCauchy(theta: seq<real>, psi: seq<real>, c: real)
    requires |theta| == |psi| && NonNegative(psi) && 0.0 < Sum(psi)
    ensures CauchyBound(Sum(psi), CentralSum(theta, psi, c, 2), CentralSum(theta, psi, c, 4))
  {
    WeightedCauchy(SquaredDeviations(theta, c), psi);
    SquaredDeviationSum(theta, psi, c);
    SquaredDeviationSquareSum(theta, psi, c);
  }

  /** From (v s)² ≤ s · (k s) with s > 0 and v ≠ 0 follows k / v² ≥ 1. */
  lemma PearsonArithmetic(m: Moments, s: real, c2: real, c4: real)
    requires 0.0 < s && Variance(m) != 0.0
    requires MeanOf(Variance(m), s, c2) && MeanOf(KurtosisNumerator(m), s, c4) && CauchyBound(s, c2, c4)
    ensures 1.0 <= Kurtosis(m)
  {
    var v, k := Variance(m), KurtosisNumerator(m);
    assert c2 * c2 == (v * v) * (s * s);
    assert s * c4 == k * (s * s);
    assert 0.0 < s * s;
    assert v * v <= k;
    SquarePositive(v);
    MeanAtLeastOne(Kurtosis(m), v * v, k);
  }

  /** Pearson's inequality: with concentrations that are not negative, the kurtosis of
      the exact moments is at least 1. */
  lemma KurtosisAtLeastOne(theta: seq<real>, psi: seq<real>)
    requires |theta| == |psi| && NonNegative(psi) && 0.0 < Sum(psi)
    requires Variance(MomentsOf(theta, psi)) != 0.0
    ensures 1.0 <= Kurtosis(MomentsOf(theta, psi))
  {
    var m := MomentsOf(theta, psi);
    VarianceIsCentralSpread(theta, psi);
    KurtosisNumeratorIsCentral(theta, psi);
    CentralSumsCauchy(theta, psi, m.alpha1);
    PearsonArithmetic(m, Sum(psi), CentralSum(theta, psi, m.alpha1, 2), CentralSum(theta, psi, m.alpha1, 4));
  }

  /** The statistics formed from the exact moments of a series with concentrations that
      are not negative: a positive variance and a kurtosis of at least 1. */
  lemma StatisticsOfExactMoments(a: Apparatus, s: Series)
    requires Measurable(a, s) && |s.cind| > 0 && NonNegative(s.cind)
    requires Variance(CalculateMoments(a, s)) != 0.0
    ensures 0.0 < CalculateStatistics(a, s, CalculateMoments(a, s)).variance
    ensures 1.0 <= CalculateStatistics(a, s, CalculateMoments(a, s)).kurtosis
  {
    var theta, psi := Theta(a, s), Psi(a, s);
    PsiNonNegative(a, s);
    SumNonNegative(psi);
    VarianceNonNegative(theta, psi);
    KurtosisAtLeastOne(theta, psi);
  }
}
