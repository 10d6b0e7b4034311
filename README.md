# Tracer residence-time analysis: a verified model

This project models the arithmetic core of `data_processing.py`. That file analyses a
tracer-response experiment on a flow apparatus: a table of sampling times `t` and
indicator concentrations `Cind`, together with the apparatus constants
(working volume V, tracer mass Q, nominal residence time τ, flow velocity v, length L).
From these it derives the residence-time distribution and the dispersion parameters.
The model covers four steps.

- **Moments** (`calculate_moments`). The reduced time is θ = t / τ and the reduced
  concentration is ψ = Cind · V / Q. The first four moments are
  α_k = Σ θ^k ψ / Σ ψ (module `MomentCalculator`, on top of `TracerData` and the
  weighted-sum library `WeightedSums`).
- **Statistics** (`calculate_statistics`) (module `StatisticsCalculator`):
  - the mode (θ at the first largest ψ, as `np.argmax` picks it);
  - the modal density;
  - the variance α2 − α1²;
  - the kurtosis (α4 − 4 α3 α1 + 6 α2 α1² − 3 α1⁴) / variance².
- **Peclet numbers** (`calc_peclet_numbers`) (module `PecletSolver`):
  - the closed forms Pe1 and Pe5 with their 0 sentinels;
  - the loop that fills the nine slots, taking the seven root searches as given
    outcomes;
  - the counts nAll and n4, the two averages, the dispersion coefficients v · L / Pe
    and the half values n1 and n2.
- **Simplified method** (`calc_simple_method`) (module `SimplifiedMethod`):
  - τ1, the reduced step and the loop that builds the midpoint series Csr;
  - the step-weighted sums M0, M1 and M2, the normalised M2t, and Pe = 2 / (M2t − 1),
    n = 1 / (M2t − 1).

The two places where the Python code builds a list step by step are methods with loop
invariants: the nine-slot collection loop and the Csr loop. The counters nAll and n4
are decremented in a method too. Each method is proved equal to a specification
function, and the properties are proved about those functions. The vectorised
numpy/pandas expressions are functions over `seq<real>`.

Main results:

- **Moments as weighted means.** With concentrations that are not negative, every
  moment lies between the bounds of θ^k, and α1 ≥ 0 when the times are not negative.
  At a fixed τ the moments depend neither on V nor on Q. In the program τ is V divided
  by the volumetric flow rate, so a change of V alone also changes θ.
- **Variance and kurtosis.** For exact moments, the variance is the ψ-weighted mean of
  (θ − α1)², so it is not negative. The kurtosis numerator is the mean of (θ − α1)⁴.
  Cauchy–Schwarz then gives Pearson's bound: kurtosis ≥ 1.
- **Peclet estimates and averages.**
  - Pe1 and Pe5 invert the model relations α1 = 1 + 1/Pe and m = Pe / (Pe + 2).
    Pe1 is 0 exactly when α1 ≤ 1.001. Pe5 is 0 exactly when m ≥ 1 (its guard) or
    m = 0, where the formula itself gives 0.
  - nAll ∈ {7, 8, 9} and n4 = nAll − 5. Both are fixed by α1 and the mode alone: a
    slot 0 or 4 at 0 leaves both counts, so a zero mode is dropped from nAll and n4
    like a mode at or above 1.
  - The averages are the slot sums over these counts; zeros from failed searches stay
    in the sum. Estimates that are not negative give averages that are not negative.
  - When every counted estimate agrees on one value, both averages equal it.
  - As written, a search that does not converge still fills its slot with its last
    iterate, and the model computes exactly that (`SlotAsWritten`). The evidently
    intended slots, with 0 for such a search, are `PecletNumbersCorrected`; they agree
    with the slots as written whenever no search stalls (see Findings).
- **Simplified method.**
  - Every midpoint lies between its neighbours, and Σ Csr is the trapezoid rule.
    M0 is the step times the trapezoid area.
  - The step, and with it τ1, cancels from M2t. With concentrations that are not
    negative, M2t ≥ 1, so Pe = 2 n > 0.

τ1 is reproduced as written, Σ (t + Cind) / Σ Cind, which is 1 + Σ t / Σ Cind
(`SimplifiedMethod.Tau1AddsOne`), not the concentration-weighted mean time. It is
reported as a result. It does not reach the reported Pe and n, though.
`SimplifiedMethod.SpreadIgnoresStep` shows that the step deltaTheta = 0.25 / τ1 scales
M0, M1 and M2 alike and cancels from M2t.

The code raises no dedicated error for a zero divisor, and the model adds none. Each
division whose divisor the code does not check is a precondition:
- Σ ψ (`MomentCalculator.Measurable`);
- the variance, in `StatisticsCalculator.Kurtosis`;
- Σ Cind, τ1, M0, M1 and M2t − 1 (`SimplifiedMethod.Estimable`).

The statistics also need a series that is not empty (`StatisticsCalculator.Describable`):
`np.max` and `np.argmax` raise `ValueError` on an empty array (data_processing.py:45-46).

The divisions v · L / PesrAll and v · L / Pesr4 are the exception: numpy returns an
infinity there, and the model returns the `Unbounded` case of `PecletSolver.Dispersion`.

## Model

| member | source | states |
|---|---|---|
| TracerData.Theta | data_processing.py:12 | one reduced time per row, with θ_i · τ = t_i |
| TracerData.Psi | data_processing.py:13 | one reduced concentration per row, with ψ_i · Q = Cind_i · V |
| TracerData.ThetaNonNegative | data_processing.py:12 | times that are not negative give reduced times that are not negative |
| TracerData.PsiNonNegative | data_processing.py:13 | concentrations that are not negative give reduced concentrations that are not negative |
| TracerData.PsiTotal | data_processing.py:13-15 | Σ ψ = (V / Q) · Σ Cind, so the divisor Σ ψ is zero exactly when Σ Cind is |
| MomentCalculator.Moment | data_processing.py:15-24 | α_k · Σ ψ equals the elementwise sum Σ θ_i^k ψ_i |
| MomentCalculator.MomentsOf | data_processing.py:15-24 | the record α1 … α4, each field the `Moment` of its order; it has no contract of its own, `Moment` states what each field is |
| MomentCalculator.CalculateMoments | data_processing.py:10-24 | the moments of θ = t / τ under ψ = Cind · V / Q; it has no contract of its own: `MeanResidenceTimeNonNegative`, `EvenMomentsNonNegative` and `MomentsIndependentOfVolumeAndTracerMass` state its properties |
| MomentCalculator.MomentBounds | data_processing.py:15-24 | with ψ ≥ 0 and Σ ψ > 0, α_k lies between any lower and upper bound of the θ_i^k |
| MomentCalculator.MeanResidenceTimeNonNegative | data_processing.py:12-21 | times and concentrations that are not negative give α1 ≥ 0 |
| MomentCalculator.EvenMomentsNonNegative | data_processing.py:15-24 | concentrations that are not negative give α2 ≥ 0 and α4 ≥ 0 whatever the times |
| MomentCalculator.MomentScaleInvariant | data_processing.py:15-24 | scaling every ψ_i by one non-zero factor leaves α_k unchanged |
| MomentCalculator.MomentsIndependentOfVolumeAndTracerMass | data_processing.py:12-24 | two apparatuses with the same τ give the same four moments: the volume V and the tracer mass Q cancel |
| StatisticsCalculator.Variance | data_processing.py:50 | α2 − α1²; it has no contract of its own: `VarianceIsCentralSpread` and `VarianceNonNegative` state what it is for exact moments |
| StatisticsCalculator.KurtosisNumerator | data_processing.py:54 | α4 − 4 α3 α1 + 6 α2 α1² − 3 α1⁴; it has no contract of its own: `KurtosisNumeratorIsCentral` states what it is for exact moments |
| StatisticsCalculator.ArgMax | data_processing.py:45-46 | the index of the first largest ψ: no ψ exceeds it, and every earlier ψ is strictly smaller |
| StatisticsCalculator.Kurtosis | data_processing.py:54 | kurtosis · variance² equals α4 − 4 α3 α1 + 6 α2 α1² − 3 α1⁴; the variance must not be zero |
| StatisticsCalculator.CalculateStatistics | data_processing.py:45-54 | mode and modal density are θ and ψ of one row; no ψ exceeds the modal density, and earlier rows have strictly smaller ψ; variance α2 − α1²; the kurtosis relation |
| StatisticsCalculator.VarianceIsCentralSpread | data_processing.py:50 | for exact moments, variance · Σ ψ = Σ (θ_i − α1)² ψ_i |
| StatisticsCalculator.KurtosisNumeratorIsCentral | data_processing.py:54 | for exact moments, the kurtosis numerator times Σ ψ is Σ (θ_i − α1)⁴ ψ_i |
| StatisticsCalculator.VarianceNonNegative | data_processing.py:50 | with ψ ≥ 0 and Σ ψ > 0, the variance of the exact moments is not negative |
| StatisticsCalculator.KurtosisAtLeastOne | data_processing.py:54 | with ψ ≥ 0, Σ ψ > 0 and a variance that is not zero, the kurtosis of the exact moments is at least 1 |
| StatisticsCalculator.StatisticsOfExactMoments | data_processing.py:45-54 | statistics formed from the exact moments of concentrations that are not negative, with a variance that is not zero, have variance > 0 and kurtosis ≥ 1 |
| PecletSolver.Pecle1 | data_processing.py:80-85 | for α1 > 1.001, Pe1 · (α1 − 1) = 1 and 0 < Pe1 < 1000; otherwise Pe1 = 0 |
| PecletSolver.Pecle1Inverse | data_processing.py:80-85 | above the threshold, α1 = 1 + 1 / Pe1 |
| PecletSolver.Pecle1ZeroIff | data_processing.py:80-85 | Pe1 = 0 exactly when α1 ≤ 1.001 |
| PecletSolver.Pecle5 | data_processing.py:103-108 | for m < 1, Pe5 · (1 − m) = 2 m, and Pe5 ≥ 0 when also m ≥ 0; for m ≥ 1, Pe5 = 0 |
| PecletSolver.Pecle5Inverse | data_processing.py:103-108 | for m < 1, m = Pe5 / (Pe5 + 2) |
| PecletSolver.Pecle5ZeroIff | data_processing.py:103-108 | Pe5 = 0 exactly when m = 0 or m ≥ 1 |
| PecletSolver.SlotAsWritten | data_processing.py:129-134 | as written: a slot holds ± whatever fsolve returned, converged or not (never negative), and 0 only after a `RuntimeError` |
| PecletSolver.StalledSearchFillsSlot | data_processing.py:129-134 | a search that stops short of a root at a non-zero iterate fills its slot as written, and gives 0 in the corrected slot |
| PecletSolver.Slot | data_processing.py:129-134 | corrected: a slot holds ± the root a converged search found (never negative); any slot that is not 0 comes from a converged search |
| PecletSolver.PecletNumbers | data_processing.py:124-134 | nine slots in order: Pe1 in slot 0, Pe5 in slot 4, and the as-written slot of search `RootIndex(i)` in every other slot i |
| PecletSolver.PecletNumbersCorrected | data_processing.py:124-134 | corrected: the same order, with the corrected slot of search `RootIndex(i)` in every other slot i |
| PecletSolver.CorrectedAgreesUnlessStalled | data_processing.py:129-134 | the corrected and the as-written slots agree on every slot whose search did not stall, and all nine agree when no search stalled |
| PecletSolver.CollectPecletNumbers | data_processing.py:124-134 | the loop yields the nine slots in order: Pe1, three searches, Pe5, four searches |
| PecletSolver.Excluded | data_processing.py:136-154 | the number of the slots 0 and 4 that hold 0: at most 2, none exactly when both are non-zero, 2 exactly when both are 0 |
| PecletSolver.CountAll | data_processing.py:136-140 | nAll is between 7 and 9 |
| PecletSolver.CountFour | data_processing.py:149-154 | n4 is between 2 and 4 and is always nAll − 5 |
| PecletSolver.CountsFromGuards | data_processing.py:136-154 | nAll = 9 − d and n4 = 4 − d, where d counts α1 ≤ 1.001 and the mode being 0 or ≥ 1 |
| PecletSolver.MeanAll | data_processing.py:144 | PesrAll · nAll equals the sum of all nine slots, zeros included |
| PecletSolver.SumFour | data_processing.py:156 | the sum of slots 0, 1, 4 and 6; with no negative slot it lies between 0 and the sum of all nine |
| PecletSolver.MeanFour | data_processing.py:156 | Pesr4 · n4 equals the sum of slots 0, 1, 4 and 6 |
| PecletSolver.DispersionOf | data_processing.py:146 | D is finite exactly when Pe ≠ 0, and then D · Pe = v · L, with D > 0 for Pe > 0 |
| PecletSolver.CalcPecletNumbers | data_processing.py:124-159 | the results are the nine slots, their two averages, the two dispersion coefficients and n1, n2 with 2 n = average |
| PecletSolver.SlotsNonNegative | data_processing.py:124-134 | with a mode that is not negative, every slot is not negative |
| PecletSolver.MeansNonNegative | data_processing.py:144-156 | slots that are not negative give PesrAll ≥ 0 and Pesr4 ≥ 0 |
| PecletSolver.MeansOfAgreeingEstimates | data_processing.py:136-156 | when every counted slot holds p (and an uncounted closed form holds 0), PesrAll = Pesr4 = p |
| PecletSolver.CellsNonNegative | data_processing.py:148-159 | n1 and n2 taken as half of PesrAll and Pesr4 are not negative when the mode is not negative |
| SimplifiedMethod.AddColumns | data_processing.py:202 | one entry per row, t_i + Cind_i |
| SimplifiedMethod.Tau1 | data_processing.py:201-204 | τ1 · Σ Cind = Σ t + Σ Cind |
| SimplifiedMethod.Tau1AddsOne | data_processing.py:201-204 | τ1 = 1 + Σ t / Σ Cind: the concentrations are added to, not weighting, the times |
| SimplifiedMethod.DeltaTheta | data_processing.py:205-206 | deltaTheta · τ1 = 0.25, and deltaTheta ≠ 0 |
| SimplifiedMethod.Midpoints | data_processing.py:207-209 | one value per interval (length len(ψ) − 1, or 0), each the mean of its two neighbouring ψ |
| SimplifiedMethod.Init | data_processing.py:213-214 | θ[:-1]: the same length as Csr, agreeing with θ on every index |
| SimplifiedMethod.MidpointsBetween | data_processing.py:207-209 | every midpoint lies between the two samples it joins |
| SimplifiedMethod.MidpointsNonNegative | data_processing.py:207-209 | concentrations that are not negative give midpoints that are not negative |
| SimplifiedMethod.MidpointsTrapezoid | data_processing.py:207-209 | Σ Csr = Σ ψ − (ψ_first + ψ_last) / 2, the trapezoid rule |
| SimplifiedMethod.CollectMidpoints | data_processing.py:207-209 | the loop yields exactly the midpoint series |
| SimplifiedMethod.StepSum | data_processing.py:212-214 | M_k is the elementwise Σ (deltaTheta · Csr_i) · θ_i^k |
| SimplifiedMethod.StepFactorsOut | data_processing.py:212-214 | M_k = deltaTheta · Σ Csr_i θ_i^k |
| SimplifiedMethod.ZerothSumIsTrapezoidArea | data_processing.py:212 | M0 = deltaTheta times the trapezoid area under ψ |
| SimplifiedMethod.Spread | data_processing.py:216-218 | M2t = (M2 / M0) / (M1 / M0)²; it has no contract of its own: `SpreadCleared`, `SpreadScaleFree` and `SpreadAtLeastOne` state its properties |
| SimplifiedMethod.SpreadCleared | data_processing.py:216-218 | M2t · M1² = M0 · M2 |
| SimplifiedMethod.SpreadScaleFree | data_processing.py:216-218 | scaling M0, M1, M2 by a common non-zero factor leaves M2t unchanged |
| SimplifiedMethod.SpreadAtLeastOne | data_processing.py:216-218 | with M0 > 0 and M1² ≤ M0 · M2, M2t ≥ 1 |
| SimplifiedMethod.SimplePeclet | data_processing.py:220 | Pe · (M2t − 1) = 2 |
| SimplifiedMethod.CellCount | data_processing.py:221 | n · (M2t − 1) = 1 |
| SimplifiedMethod.PecletIsTwiceCells | data_processing.py:220-221 | Pe = 2 n, and both are positive once M2t > 1 |
| SimplifiedMethod.CalcSimpleMethod | data_processing.py:197-221 | the results are τ1, deltaT = 0.25, the midpoint series, M0, M1, M2 of θ[:-1] and Csr, and Pe, n of their M2t |
| SimplifiedMethod.SpreadIgnoresStep | data_processing.py:204-218 | M2t of a series equals the M2t of Csr under θ[:-1] alone: deltaTheta, and with it τ1, cancels |
| SimplifiedMethod.SimpleResultsPositive | data_processing.py:207-221 | with concentrations that are not negative, M2t > 1, so Pe > 0 and n > 0 |

## Left out

- The seven `fsolve` root searches (data_processing.py:87-101, 110-120, 131) are SciPy calls whose results cannot be stated. Each one enters as a `RootOutcome`: a root it converged to, the last iterate it returned with a `RuntimeWarning` when it did not converge, or a `RuntimeError` caught on line 133. The model does not say which of these a given residual leads to.
- The transcendental f(x) of the modal-density estimator (erfc, exp, square roots, π) is floating-point special-function numerics.
- The skewness, variance^1.5, is a fractional power. It is used only by an estimator whose root is an input.
- `calc_cells_and_С` is a Nelder–Mead fit over a ceiling and factorial objective, done by `scipy.optimize.minimize`.
- The `round(..., 3)` and `round(..., 6)` calls are presentation. The model keeps exact values. In the program the statistics and the Peclet step receive rounded moments. `CalculateStatistics` and `CalcPecletNumbers` take the moments and the statistics as parameters for that reason. The lemmas about exact moments (`VarianceIsCentralSpread`, `KurtosisAtLeastOne`, `StatisticsOfExactMoments`) hold for unrounded values only.
- `read_csv_data` reads a CSV file through pandas, which is I/O. `bot.py` (Telegram handlers) and `plots.py` (matplotlib and `odeint`) are not part of this model.
- `cfg.py` is not part of this model. V, Q (the tracer mass), τ, v and L are positive real parameters (`TracerData.Apparatus`); their derivation from the column geometry and the flow rate w (τ = V / w) is not modelled.
- Floating point: values are exact reals. Overflow, rounding error, NaN and IEEE infinities are not modelled, except the infinite dispersion coefficient (`PecletSolver.Dispersion`). Divisions by zero that numpy turns into inf or nan, or that raise `ZeroDivisionError`, are preconditions instead.
- Pandas label indexing in `theta[psiN]` (data_processing.py:47) and in `psi[i]`, `psi[i + 1]` of the Csr loop (data_processing.py:209) is read as positional indexing, which is what it does for the default row index.
- StatisticsCalculator.CalculateStatistics: the `ValueError` that `np.max` and `np.argmax` raise for an empty series is not modelled; the empty series is excluded by `Describable` instead.
- The residual functions pecle2–pecle4 and pecle6–pecle9 (data_processing.py:87-120) are not modelled; their roots fill slots 1-3 and 5-8 and enter the model as `RootOutcome` values.

## Findings

| source | as written | input that shows it | evidently intended | confidence | as-written member | corrected member |
|---|---|---|---|---|---|---|
| data_processing.py:129-134 | a failed search is caught only as `RuntimeError`, but `fsolve` reports a search that does not converge with a `RuntimeWarning` and returns its last iterate, so that iterate's absolute value fills the slot and enters both averages | a search that stops at the non-zero iterate x: `Stalled(x)` gives a slot equal to the absolute value of x (`StalledSearchFillsSlot`) | a search that did not converge gives the 0 of line 134, as for an exception (`PecletNumbersCorrected`) | medium (from SciPy's documented behaviour of `fsolve`), not executed | PecletSolver.SlotAsWritten | PecletSolver.Slot |
