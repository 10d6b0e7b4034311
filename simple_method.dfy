/** The simplified estimate of the Peclet number and the number of cells
    (data_processing.py, calc_simple_method): step-weighted sums of the midpoint
    concentrations, their normalised second moment M2t, and Pe = 2 / (M2t − 1),
    n = 1 / (M2t − 1). */
module SimplifiedMethod {
  import opened WeightedSums
  import opened TracerData
  import opened MomentCalculator

  /** The time step deltaT the method assumes between samples. */
  const TimeStep: real := 0.25

  /** The results of the simplified method: τ1, the time step, the midpoint series Csr,
      the sums M0, M1, M2, the Peclet number and the number of cells. */
  datatype SimpleResults = SimpleResults(tau1: real, deltaT: real, csr: seq<real>,
                                         m0: real, m1: real, m2: real, pe: real, cells: real)

  // ---------------------------------------------------------------------------
  // The mean time τ1 and the reduced step.

  /** The row-by-row sums t_i + Cind_i. */
  function AddColumns(t: seq<real>, c: seq<real>): (r: seq<real>)
    requires |t| == |c|
    ensures |r| == |t|
    ensures forall i :: 0 <= i < |t| ==> r[i] == t[i] + c[i]
  {
    seq(|t|, i requires 0 <= i < |t| => t[i] + c[i])
  }

  /** τ1 = Σ (t_i + Cind_i) / Σ Cind_i, as the method forms it: the times are added to the
      concentrations, not weighted by them. */
  function Tau1(s: Series): (tau1: real)
    requires WellFormed(s) && Sum(s.cind) != 0.0
    ensures tau1 * Sum(s.cind) == Sum(s.t) + Sum(s.cind)
  {
    SumOfPairwise(s.t, s.cind, AddColumns(s.t, s.cind));
    Sum(AddColumns(s.t, s.cind)) / Sum(s.cind)
  }

  /** The reduced step deltaTheta = deltaT / τ1. */
  function DeltaTheta(s: Series): (dt: real)
    requires WellFormed(s) && Sum(s.cind) != 0.0 && Tau1(s) != 0.0
    ensures dt * Tau1(s) == TimeStep
    ensures dt != 0.0
  {
    TimeStep / Tau1(s)
  }

  /** τ1 exceeds the unweighted ratio Σ t / Σ Cind by exactly 1: the sum of the
      concentrations divided by itself. */
  lemma Tau1AddsOne(s: Series)
    requires WellFormed(s) && Sum(s.cind) != 0.0
    ensures Tau1(s) == 1.0 + Ratio(Sum(s.t), Sum(s.cind))
  {
    Tau1Arithmetic(Tau1(s), Sum(s.t), Sum(s.cind));
  }

  lemma Tau1Arithmetic(tau1: real, st: real, sc: real)
    requires sc != 0.0 && MeanOf(tau1, sc, st + sc)
    ensures tau1 == 1.0 + Ratio(st, sc)
  {
    var r := Ratio(st, sc);
    assert r * sc == st;
    assert (1.0 + r) * sc == sc + r * sc;
    CancelNonZero(tau1, 1.0 + r, sc);
  }

  /** A factor that is not zero cancels from both sides of an equation. */
  lemma CancelNonZero(x: real, y: real, c: real)
    requires c != 0.0 && x * c == y * c
    ensures x == y
  {
    assert (x - y) * c == 0.0;
  }

  // ---------------------------------------------------------------------------
  // The midpoint series Csr and θ without its last sample.

  /** The number of intervals between the samples of a series of length n. */
  function Intervals(n: nat): nat
  {
    if n == 0 then 0 else n - 1
  }

  /** Csr_i = (ψ_{i+1} − ψ_i) / 2 + ψ_i, one value per interval between two samples. */
  function Midpoints(psi: seq<real>): (c: seq<real>)
    ensures |c| == Intervals(|psi|)
    ensures forall i :: 0 <= i < |c| ==> 2.0 * c[i] == psi[i] + psi[i + 1]
  {
    seq(Intervals(|psi|), i requires 0 <= i < Intervals(|psi|) => (psi[i + 1] - psi[i]) / 2.0 + psi[i])
  }

  /** θ[:-1]: every sample but the last (nothing when there is none). */
  function Init(theta: seq<real>): (x: seq<real>)
    ensures |x| == Intervals(|theta|)
    ensures forall i :: 0 <= i < |x| ==> x[i] == theta[i]
  {
    if |theta| == 0 then [] else theta[..|theta| - 1]
  }

  /** Every midpoint lies between the two samples it joins. */
  lemma MidpointsBetween(psi: seq<real>, i: nat)
    requires i < Intervals(|psi|)
    ensures psi[i] <= psi[i + 1] ==> psi[i] <= Midpoints(psi)[i] <= psi[i + 1]
    ensures psi[i + 1] <= psi[i] ==> psi[i + 1] <= Midpoints(psi)[i] <= psi[i]
  {
  }

  /** Concentrations that are not negative give midpoints that are not negative. */
  lemma MidpointsNonNegative(psi: seq<real>)
    requires NonNegative(psi)
    ensures NonNegative(Midpoints(psi))
  {
    forall i | 0 <= i < Intervals(|psi|)
      ensures 0.0 <= Midpoints(psi)[i]
    {
      MidpointsBetween(psi, i);
    }
  }

  lemma MidpointsTail(psi: seq<real>)
    requires |psi| >= 2
    ensures Midpoints(psi)[1..] == Midpoints(psi[1..])
  {
    forall i | 0 <= i < |psi| - 2
      ensures Midpoints(psi)[1..][i] == Midpoints(psi[1..])[i]
    {
      assert psi[1..][i] == psi[i + 1] && psi[1..][i + 1] == psi[i + 2];
    }
  }

  /** The trapezoid rule with unit spacing: every sample counts once, except the first and
      the last, which count half. */
  function TrapezoidArea(psi: seq<real>): real
    requires |psi| > 0
  {
    Sum(psi) - (psi[0] + psi[|psi| - 1]) / 2.0
  }

  /** The sum of the midpoints is the trapezoid rule. */
  lemma {:induction false} MidpointsTrapezoid(psi: seq<real>)
    requires |psi| > 0
    ensures Sum(Midpoints(psi)) == TrapezoidArea(psi)
    decreases |psi|
  {
    if |psi| == 1 {
      assert Midpoints(psi) == [];
      assert Sum(psi) == psi[0] + Sum(psi[1..]);
      assert psi[1..] == [];
    } else {
      var rest := psi[1..];
      MidpointsTrapezoid(rest);
      MidpointsTail(psi);
      assert Sum(Midpoints(psi)) == Midpoints(psi)[0] + Sum(Midpoints(rest));
      assert Sum(psi) == psi[0] + Sum(rest);
      TrapezoidStep(Midpoints(psi)[0], psi[0], psi[1], rest[|rest| - 1], Sum(Midpoints(rest)), Sum(rest));
    }
  }

  lemma TrapezoidStep(mid: real, first: real, second: real, last: real, restMid: real, restSum: real)
    requires 2.0 * mid == first + second
    requires restMid == restSum - (second + last) / 2.0
    ensures mid + restMid == (first + restSum) - (first + last) / 2.0
  {
  }

  // ---------------------------------------------------------------------------
  // The step-weighted sums and the normalised second moment.

  /** M_k = Σ (deltaTheta · Csr_i) · x_i^k over the points x = θ[:-1]. */
  function StepSum(x: seq<real>, csr: seq<real>, dt: real, k: nat): (mk: real)
    requires |x| == |csr|
    ensures mk == Sum(Products(Powers(x, k), Scale(dt, csr)))
  {
    PowerSumElementwise(x, Scale(dt, csr), k);
    PowerSum(x, Scale(dt, csr), k)
  }

  /** m = c · p, kept as one named fact. */
  predicate ScaledBy(m: real, c: real, p: real)
  {
    m == c * p
  }

  /** The step factors out of every sum: M_k = deltaTheta · Σ Csr_i x_i^k. */
  lemma StepFactorsOut(x: seq<real>, csr: seq<real>, dt: real, k: nat)
    requires |x| == |csr|
    ensures StepSum(x, csr, dt, k) == dt * PowerSum(x, csr, k)
  {
    PowerSumScale(x, csr, dt, k);
  }

  /** StepFactorsOut with its product held as one term, for the proofs below. */
  lemma StepScaledBy(x: seq<real>, csr: seq<real>, dt: real, k: nat)
    requires |x| == |csr|
    ensures ScaledBy(StepSum(x, csr, dt, k), dt, PowerSum(x, csr, k))
  {
    StepFactorsOut(x, csr, dt, k);
  }

  /** M0 is the step times the trapezoid-rule area under the reduced concentration. */
  lemma ZerothSumIsTrapezoidArea(theta: seq<real>, psi: seq<real>, dt: real)
    requires |theta| == |psi| > 0
    ensures StepSum(Init(theta), Midpoints(psi), dt, 0) == dt * TrapezoidArea(psi)
  {
    StepFactorsOut(Init(theta), Midpoints(psi), dt, 0);
    assert PowerSum(Init(theta), Midpoints(psi), 0) == Sum(Midpoints(psi));
    MidpointsTrapezoid(psi);
    assert ScaledBy(StepSum(Init(theta), Midpoints(psi), dt, 0), dt, TrapezoidArea(psi));
  }

  /** M2t = M2m / M1m² with M1m = M1 / M0 and M2m = M2 / M0. */
  function Spread(m0: real, m1: real, m2: real): (m2t: real)
    requires m0 != 0.0 && m1 != 0.0
  {
    NonZeroRatio(m1, m0);
    Ratio(Ratio(m2, m0), Ratio(m1, m0) * Ratio(m1, m0))
  }

  lemma NonZeroRatio(p: real, s: real)
    requires p != 0.0 && s != 0.0
    ensures Ratio(p, s) * Ratio(p, s) != 0.0
  {
    assert Ratio(p, s) * s == p;
  }

  /** Without the divisions: M2t · M1² = M2 · M0. */
  lemma SpreadCleared(m0: real, m1: real, m2: real)
    requires m0 != 0.0 && m1 != 0.0
    ensures MeanOf(Spread(m0, m1, m2), m1 * m1, m0 * m2)
  {
    var r1, r2 := Ratio(m1, m0), Ratio(m2, m0);
    var q := Spread(m0, m1, m2);
    assert r1 * m0 == m1 && r2 * m0 == m2;
    assert q * (r1 * r1) == r2;
    assert m1 * m1 == (r1 * r1) * (m0 * m0);
    assert q * (m1 * m1) == r2 * (m0 * m0);
    assert r2 * (m0 * m0) == m0 * m2;
  }

  /** M2t does not change when M0, M1 and M2 are scaled by a common factor. */
  lemma SpreadScaleFree(m0: real, m1: real, m2: real, c: real)
    requires m0 != 0.0 && m1 != 0.0 && c != 0.0
    ensures c * m0 != 0.0 && c * m1 != 0.0
    ensures Spread(c * m0, c * m1, c * m2) == Spread(m0, m1, m2)
  {
    NonZeroProduct(c, m1);
    CancelCommonFactor(c * m2, c * m0, m2, m0, c);
    CancelCommonFactor(c * m1, c * m0, m1, m0, c);
  }

  lemma NonZeroProduct(c: real, m: real)
    requires c != 0.0 && m != 0.0
    ensures c * m != 0.0
  {
  }

  /** With M1² ≤ M0 · M2 and M0 > 0 (Cauchy–Schwarz), M2t is at least 1. */
  lemma SpreadAtLeastOne(m0: real, m1: real, m2: real)
    requires 0.0 < m0 && m1 != 0.0 && CauchyBound(m0, m1, m2)
    ensures 1.0 <= Spread(m0, m1, m2)
  {
    SpreadCleared(m0, m1, m2);
    SquarePositive(m1);
    MeanAtLeastOne(Spread(m0, m1, m2), m1 * m1, m0 * m2);
  }

  /** The Peclet number of the simplified method, Pe = 2 / (M2t − 1). */
  function SimplePeclet(m2t: real): (pe: real)
    requires m2t != 1.0
    ensures pe * (m2t - 1.0) == 2.0
  {
    2.0 / (m2t - 1.0)
  }

  /** The number of cells of the simplified method, n = 1 / (M2t − 1). */
  function CellCount(m2t: real): (n: real)
    requires m2t != 1.0
    ensures n * (m2t - 1.0) == 1.0
  {
    1.0 / (m2t - 1.0)
  }

  /** The two results agree with the cell model: Pe = 2 n, and both are positive once
      M2t exceeds 1. */
  lemma PecletIsTwiceCells(m2t: real)
    requires m2t != 1.0
    ensures SimplePeclet(m2t) == 2.0 * CellCount(m2t)
    ensures 1.0 < m2t ==> 0.0 < CellCount(m2t) && 0.0 < SimplePeclet(m2t)
  {
    var pe, n := SimplePeclet(m2t), CellCount(m2t);
    assert (pe - 2.0 * n) * (m2t - 1.0) == 0.0;
  }

  // ---------------------------------------------------------------------------
  // The method on a measured series.

  /** The three step-weighted sums of a series are formed over θ[:-1] and Csr. */
  function StepSums(a: Apparatus, s: Series, k: nat): real
    requires ValidApparatus(a) && WellFormed(s) && Sum(s.cind) != 0.0 && Tau1(s) != 0.0
  {
    StepSum(Init(Theta(a, s)), Midpoints(Psi(a, s)), DeltaTheta(s), k)
  }

  /** A series the simplified method can evaluate: no division on the way is by zero
      (Σ Cind, τ1, M0, M1 and M2t − 1). */
  predicate Estimable(a: Apparatus, s: Series)
  {
    ValidApparatus(a) && WellFormed(s) && Sum(s.cind) != 0.0 && Tau1(s) != 0.0 &&
    StepSums(a, s, 0) != 0.0 && StepSums(a, s, 1) != 0.0 &&
    Spread(StepSums(a, s, 0), StepSums(a, s, 1), StepSums(a, s, 2)) != 1.0
  }

  /** The loop that appends one midpoint per interval. */
  method CollectMidpoints(psi: seq<real>) returns (csr: seq<real>)
    ensures csr == Midpoints(psi)
  {
    csr := [];
    var i := 0;
    while i < |psi| - 1
      invariant 0 <= i <= Intervals(|psi|)
      invariant csr == Midpoints(psi)[..i]
    {
      csr := csr + [(psi[i + 1] - psi[i]) / 2.0 + psi[i]];
      i := i + 1;
    }
    assert csr == Midpoints(psi)[..Intervals(|psi|)];
  }

  /** The whole simplified method on a series; the midpoint series is built by a loop. */
  method CalcSimpleMethod(a: Apparatus, s: Series) returns (r: SimpleResults)
    requires Estimable(a, s)
    ensures r.tau1 == Tau1(s) && r.deltaT == TimeStep
    ensures r.csr == Midpoints(Psi(a, s))
    ensures r.m0 == StepSums(a, s, 0) && r.m1 == StepSums(a, s, 1) && r.m2 == StepSums(a, s, 2)
    ensures r.pe == SimplePeclet(Spread(r.m0, r.m1, r.m2))
    ensures r.cells == CellCount(Spread(r.m0, r.m1, r.m2))
  {
    var theta, psi := Theta(a, s), Psi(a, s);
    var tau1 := Tau1(s);
    var deltaTheta := TimeStep / tau1;

    var csr := CollectMidpoints(psi);
    var x := Init(theta);
    var m0 := StepSum(x, csr, deltaTheta, 0);
    var m1 := StepSum(x, csr, deltaTheta, 1);
    var m2 := StepSum(x, csr, deltaTheta, 2);
    var m2t := Spread(m0, m1, m2);
    r := SimpleResults(tau1, TimeStep, csr, m0, m1, m2, SimplePeclet(m2t), CellCount(m2t));
  }

  // ---------------------------------------------------------------------------
  // What the simplified results depend on.

  /** M2t of a series is that of the midpoints under θ[:-1] alone: the step deltaTheta,
      and with it τ1, cancels. */
  lemma SpreadIgnoresStep(a: Apparatus, s: Series)
    requires Estimable(a, s)
    ensures PowerSum(Init(Theta(a, s)), Midpoints(Psi(a, s)), 0) != 0.0
    ensures PowerSum(Init(Theta(a, s)), Midpoints(Psi(a, s)), 1) != 0.0
    ensures Spread(StepSums(a, s, 0), StepSums(a, s, 1), StepSums(a, s, 2))
         == Spread(PowerSum(Init(Theta(a, s)), Midpoints(Psi(a, s)), 0),
                   PowerSum(Init(Theta(a, s)), Midpoints(Psi(a, s)), 1),
                   PowerSum(Init(Theta(a, s)), Midpoints(Psi(a, s)), 2))
  {
    var x, c, dt := Init(Theta(a, s)), Midpoints(Psi(a, s)), DeltaTheta(s);
    StepScaledBy(x, c, dt, 0);
    StepScaledBy(x, c, dt, 1);
    StepScaledBy(x, c, dt, 2);
    SpreadUnscaled(dt, PowerSum(x, c, 0), PowerSum(x, c, 1), PowerSum(x, c, 2),
      StepSums(a, s, 0), StepSums(a, s, 1), StepSums(a, s, 2));
  }

  lemma SpreadUnscaled(dt: real, p0: real, p1: real, p2: real, m0: real, m1: real, m2: real)
    requires dt != 0.0 && m0 != 0.0 && m1 != 0.0
    requires ScaledBy(m0, dt, p0) && ScaledBy(m1, dt, p1) && ScaledBy(m2, dt, p2)
    ensures p0 != 0.0 && p1 != 0.0
    ensures Spread(m0, m1, m2) == Spread(p0, p1, p2)
  {
    SpreadScaleFree(p0, p1, p2, dt);
  }

  /** With concentrations that are not negative, M2t ≥ 1 (Cauchy–Schwarz on the midpoint
      weights), so the Peclet number and the number of cells come out positive. */
  lemma SimpleResultsPositive(a: Apparatus, s: Series)
    requires Estimable(a, s) && NonNegative(s.cind)
    ensures 1.0 < Spread(StepSums(a, s, 0), StepSums(a, s, 1), StepSums(a, s, 2))
    ensures 0.0 < SimplePeclet(Spread(StepSums(a, s, 0), StepSums(a, s, 1), StepSums(a, s, 2)))
    ensures 0.0 < CellCount(Spread(StepSums(a, s, 0), StepSums(a, s, 1), StepSums(a, s, 2)))
  {
    var x, c := Init(Theta(a, s)), Midpoints(Psi(a, s));
    SpreadIgnoresStep(a, s);
    PsiNonNegative(a, s);
    MidpointsNonNegative(Psi(a, s));
    SumNonNegative(c);
    assert Sum(c) == PowerSum(x, c, 0);
    WeightedCauchy(x, c);
    SpreadAtLeastOne(PowerSum(x, c, 0), PowerSum(x, c, 1), PowerSum(x, c, 2));
    PecletIsTwiceCells(Spread(StepSums(a, s, 0), StepSums(a, s, 1), StepSums(a, s, 2)));
  }
}
