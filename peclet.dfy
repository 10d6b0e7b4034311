/** Peclet numbers of the axial-dispersion model (data_processing.py,
    calc_peclet_numbers): nine estimates, two in closed form and seven from
    numerical root searches, and their averages, dispersion coefficients and
    equivalent numbers of cells. */
module PecletSolver {
  import opened WeightedSums
  import opened TracerData
  import opened MomentCalculator
  import opened StatisticsCalculator

  /** What one numerical root search (scipy's fsolve) gave: a root it converged to; the
      last iterate it returned after a RuntimeWarning when it did not converge; or a
      RuntimeError it raised. The searches themselves are not modelled. */
  datatype RootOutcome = Converged(root: real) | Stalled(last: real) | Raised

  /** A quotient v · L / Pe: finite, or the IEEE infinity numpy returns for a zero divisor. */
  datatype Dispersion = Finite(value: real) | Unbounded

  /** The results of the Peclet analysis: the nine estimates, their two averages, the
      two dispersion coefficients and the two equivalent numbers of cells. */
  datatype PecletResults = PecletResults(numbers: seq<real>, meanAll: real, meanFour: real,
                                         dispersionAll: Dispersion, dispersionFour: Dispersion,
                                         cellsAll: real, cellsFour: real)

  /** The estimates are collected in this many slots. */
  const SlotCount: nat := 9

  /** α1 must exceed this for the first-moment estimate to be formed. */
  const MeanThreshold: real := 1.001

  /** Pe from the first moment, α1 = 1 + 1/Pe, when α1 > 1.001; otherwise 0. */
  function Pecle1(alpha1: real): (pe: real)
    ensures alpha1 > MeanThreshold ==> 0.0 < pe < 1000.0 && pe * (alpha1 - 1.0) == 1.0
    ensures alpha1 <= MeanThreshold ==> pe == 0.0
  {
    if alpha1 > MeanThreshold then 1.0 / (alpha1 - 1.0) else 0.0
  }

  /** Pe from the mode, m = Pe / (Pe + 2), when m < 1; otherwise 0. */
  function Pecle5(mode: real): (pe: real)
    ensures mode < 1.0 ==> pe * (1.0 - mode) == 2.0 * mode
    ensures 0.0 <= mode < 1.0 ==> 0.0 <= pe
    ensures 1.0 <= mode ==> pe == 0.0
  {
    if mode < 1.0 then
      QuotientNonNegative(2.0 * mode, 1.0 - mode);
      2.0 * mode / (1.0 - mode)
    else 0.0
  }

  lemma QuotientNonNegative(x: real, y: real)
    requires 0.0 < y
    ensures 0.0 <= x ==> 0.0 <= x / y
  {
  }

  /** The slot of a root search as written: the absolute value of whatever fsolve
      returned, and 0 only when it raised. A search that did not converge returns its
      last iterate with a warning, so that iterate fills the slot. */
  function SlotAsWritten(o: RootOutcome): (pe: real)
    ensures 0.0 <= pe
    ensures o.Converged? ==> pe == o.root || pe == -o.root
    ensures o.Stalled? ==> pe == o.last || pe == -o.last
    ensures o.Raised? ==> pe == 0.0
  {
    match o
    case Converged(x) => if x < 0.0 then -x else x
    case Stalled(x) => if x < 0.0 then -x else x
    case Raised => 0.0
  }

  /** As written, a search that did not converge puts its last iterate, which is not a
      root, in the slot in place of the 0 kept for a failed search. */
  lemma StalledSearchFillsSlot(x: real)
    requires x != 0.0
    ensures SlotAsWritten(Stalled(x)) != 0.0
    ensures Slot(Stalled(x)) == 0.0
  {
  }

  /** The slot of a root search: the absolute value of the root it converged to, or 0
      when the search failed, whether by a warning or by an exception. */
  function Slot(o: RootOutcome): (pe: real)
    ensures 0.0 <= pe
    ensures o.Converged? ==> pe == o.root || pe == -o.root
    ensures pe != 0.0 ==> o.Converged?
  {
    match o
    case Converged(x) => if x < 0.0 then -x else x
    case Stalled(_) => 0.0
    case Raised => 0.0
  }

  /** The root search that fills slot i (slots 0 and 4 hold the closed forms). */
  function RootIndex(i: nat): (r: nat)
    requires i < SlotCount && i != 0 && i != 4
    ensures r < 7
  {
    if i < 4 then i - 1 else i - 2
  }

  /** The nine estimates in the order they are tried: Pe1, three searches on α2, α3, α4,
      Pe5, then searches on the modal density, the variance, the skewness and the kurtosis. */
  function PecletNumbers(pe1: real, pe5: real, roots: seq<RootOutcome>): (pe: seq<real>)
    requires |roots| == 7
    ensures |pe| == SlotCount && pe[0] == pe1 && pe[4] == pe5
    ensures forall i :: 0 <= i < SlotCount && i != 0 && i != 4 ==> pe[i] == SlotAsWritten(roots[RootIndex(i)])
  {
    [pe1, SlotAsWritten(roots[0]), SlotAsWritten(roots[1]), SlotAsWritten(roots[2]), pe5,
     SlotAsWritten(roots[3]), SlotAsWritten(roots[4]), SlotAsWritten(roots[5]), SlotAsWritten(roots[6])]
  }

  /** The nine slots as evidently intended: a search that did not converge gives 0. */
  function PecletNumbersCorrected(pe1: real, pe5: real, roots: seq<RootOutcome>): (pe: seq<real>)
    requires |roots| == 7
    ensures |pe| == SlotCount && pe[0] == pe1 && pe[4] == pe5
    ensures forall i :: 0 <= i < SlotCount && i != 0 && i != 4 ==> pe[i] == Slot(roots[RootIndex(i)])
  {
    [pe1, Slot(roots[0]), Slot(roots[1]), Slot(roots[2]), pe5,
     Slot(roots[3]), Slot(roots[4]), Slot(roots[5]), Slot(roots[6])]
  }

  /** The slots of the two closed forms that hold 0 are not counted in the averages. */
  function Excluded(pe: seq<real>): (e: nat)
    requires |pe| == SlotCount
    ensures e <= 2
    ensures e == 0 <==> pe[0] != 0.0 && pe[4] != 0.0
    ensures e == 2 <==> pe[0] == 0.0 && pe[4] == 0.0
  {
    (if pe[0] == 0.0 then 1 else 0) + (if pe[4] == 0.0 then 1 else 0)
  }

  /** nAll: the number of estimates the average of all nine is taken over. */
  function CountAll(pe: seq<real>): (n: nat)
    requires |pe| == SlotCount
    ensures 7 <= n <= 9
  {
    9 - Excluded(pe)
  }

  /** n4: the number of estimates the average of slots 0, 1, 4 and 6 is taken over. */
  function CountFour(pe: seq<real>): (n: nat)
    requires |pe| == SlotCount
    ensures 2 <= n <= 4
    ensures CountAll(pe) == n + 5
  {
    4 - Excluded(pe)
  }

  /** PesrAll = Σ (1/nAll) · pe_i. Zeros from failed searches stay in both the sum and the
      count; only the zero closed forms leave the count. */
  function MeanAll(pe: seq<real>): (mean: real)
    requires |pe| == SlotCount
    ensures mean * CountAll(pe) as real == Sum(pe)
  {
    SumScale(1.0 / CountAll(pe) as real, pe);
    Sum(Scale(1.0 / CountAll(pe) as real, pe))
  }

  /** The four estimates in slots 0, 1, 4 and 6; with no negative estimate their sum
      lies between 0 and the sum of all nine. */
  function SumFour(pe: seq<real>): (s: real)
    requires |pe| == SlotCount
    ensures NonNegative(pe) ==> 0.0 <= s <= Sum(pe)
  {
    SumOfNine(pe);
    pe[0] + pe[1] + pe[4] + pe[6]
  }

  /** Pesr4 = (1/n4) · (pe_0 + pe_1 + pe_4 + pe_6). */
  function MeanFour(pe: seq<real>): (mean: real)
    requires |pe| == SlotCount
    ensures mean * CountFour(pe) as real == SumFour(pe)
  {
    (1.0 / CountFour(pe) as real) * SumFour(pe)
  }

  /** The dispersion coefficient D = v · L / Pe. */
  function DispersionOf(a: Apparatus, pe: real): (d: Dispersion)
    requires ValidApparatus(a)
    ensures d.Finite? <==> pe != 0.0
    ensures d.Finite? ==> d.value * pe == a.velocity * a.length
    ensures d.Finite? && 0.0 < pe ==> 0.0 < d.value
  {
    if pe == 0.0 then Unbounded else Finite(a.velocity * a.length / pe)
  }

  /** The loop that fills the nine slots in order: the closed forms in slots 0 and 4, the
      outcome of the next root search in every other slot. */
  method CollectPecletNumbers(alpha1: real, mode: real, roots: seq<RootOutcome>) returns (pe: seq<real>)
    requires |roots| == 7
    ensures pe == PecletNumbers(Pecle1(alpha1), Pecle5(mode), roots)
  {
    ghost var expected := PecletNumbers(Pecle1(alpha1), Pecle5(mode), roots);
    pe := [];
    var i := 0;
    while i < SlotCount
      invariant 0 <= i <= SlotCount
      invariant pe == expected[..i]
    {
      if i == 0 {
        pe := pe + [Pecle1(alpha1)];
      } else if i == 4 {
        pe := pe + [Pecle5(mode)];
      } else {
        pe := pe + [SlotAsWritten(roots[RootIndex(i)])];
      }
      i := i + 1;
    }
    assert expected[..SlotCount] == expected;
  }

  /** The whole analysis from the moments, the statistics and the outcomes of the seven
      root searches. */
  method CalcPecletNumbers(a: Apparatus, m: Moments, st: Statistics, roots: seq<RootOutcome>)
    returns (r: PecletResults)
    requires ValidApparatus(a) && |roots| == 7
    ensures r.numbers == PecletNumbers(Pecle1(m.alpha1), Pecle5(st.mode), roots)
    ensures r.meanAll == MeanAll(r.numbers) && r.meanFour == MeanFour(r.numbers)
    ensures r.dispersionAll == DispersionOf(a, r.meanAll) && r.dispersionFour == DispersionOf(a, r.meanFour)
    ensures r.cellsAll * 2.0 == r.meanAll && r.cellsFour * 2.0 == r.meanFour
  {
    var pe := CollectPecletNumbers(m.alpha1, st.mode, roots);

    var nAll := 9;
    if pe[0] == 0.0 {
      nAll := nAll - 1;
    }
    if pe[4] == 0.0 {
      nAll := nAll - 1;
    }
    assert nAll == CountAll(pe);
    var meanAll := Sum(Scale(1.0 / nAll as real, pe));
    var dispersionAll := DispersionOf(a, meanAll);
    var cellsAll := meanAll / 2.0;

    var n4 := 4;
    if pe[0] == 0.0 {
      n4 := n4 - 1;
    }
    if pe[4] == 0.0 {
      n4 := n4 - 1;
    }
    assert n4 == CountFour(pe);
    var meanFour := (1.0 / n4 as real) * (pe[0] + pe[1] + pe[4] + pe[6]);
    var dispersionFour := DispersionOf(a, meanFour);
    var cellsFour := meanFour / 2.0;

    r := PecletResults(pe, meanAll, meanFour, dispersionAll, dispersionFour, cellsAll, cellsFour);
  }

  // ---------------------------------------------------------------------------
  // Properties of the closed forms and of the averages.

  /** The first-moment estimate inverts the model relation α1 = 1 + 1/Pe. */
  lemma Pecle1Inverse(alpha1: real)
    requires alpha1 > MeanThreshold
    ensures alpha1 == 1.0 + 1.0 / Pecle1(alpha1)
  {
    var pe := Pecle1(alpha1);
    assert pe * (alpha1 - 1.0) == 1.0;
  }

  /** The first-moment estimate is zero exactly when α1 does not exceed 1.001. */
  lemma Pecle1ZeroIff(alpha1: real)
    ensures Pecle1(alpha1) == 0.0 <==> alpha1 <= MeanThreshold
  {
  }

  /** The modal estimate inverts the model relation m = Pe / (Pe + 2). */
  lemma Pecle5Inverse(mode: real)
    requires mode < 1.0
    ensures Pecle5(mode) + 2.0 != 0.0
    ensures mode == Pecle5(mode) / (Pecle5(mode) + 2.0)
  {
    var pe := Pecle5(mode);
    assert pe * (1.0 - mode) == 2.0 * mode;
    assert (pe + 2.0) * (1.0 - mode) == 2.0;
  }

  /** The modal estimate is zero exactly when the mode is zero or at least 1: a mode at
      θ = 0 is dropped from the count like a failed estimate. */
  lemma Pecle5ZeroIff(mode: real)
    ensures Pecle5(mode) == 0.0 <==> mode == 0.0 || 1.0 <= mode
  {
    if mode < 1.0 && Pecle5(mode) == 0.0 {
      assert 2.0 * mode == 0.0;
    }
  }

  /** The counts follow from the two guards alone: nAll is 9 and n4 is 4, less one for a
      first moment that does not exceed 1.001 and one for a mode that is 0 or at least 1. */
  lemma CountsFromGuards(alpha1: real, mode: real, roots: seq<RootOutcome>)
    requires |roots| == 7
    ensures var dropped := (if alpha1 <= MeanThreshold then 1 else 0) + (if mode == 0.0 || 1.0 <= mode then 1 else 0);
            CountAll(PecletNumbers(Pecle1(alpha1), Pecle5(mode), roots)) == 9 - dropped &&
            CountFour(PecletNumbers(Pecle1(alpha1), Pecle5(mode), roots)) == 4 - dropped
  {
    Pecle1ZeroIff(alpha1);
    Pecle5ZeroIff(mode);
  }

  /** The slots as written and as intended differ only where a search stalled. */
  lemma CorrectedAgreesUnlessStalled(pe1: real, pe5: real, roots: seq<RootOutcome>)
    requires |roots| == 7
    ensures (forall j :: 0 <= j < 7 ==> !roots[j].Stalled?) ==>
              PecletNumbersCorrected(pe1, pe5, roots) == PecletNumbers(pe1, pe5, roots)
    ensures forall i :: 0 <= i < SlotCount && i != 0 && i != 4 && !roots[RootIndex(i)].Stalled? ==>
              PecletNumbersCorrected(pe1, pe5, roots)[i] == PecletNumbers(pe1, pe5, roots)[i]
  {
    forall o: RootOutcome | !o.Stalled?
      ensures Slot(o) == SlotAsWritten(o)
    {
    }
  }

  /** Every slot is an estimate that is not negative when the mode is not negative. */
  lemma SlotsNonNegative(alpha1: real, mode: real, roots: seq<RootOutcome>)
    requires |roots| == 7 && 0.0 <= mode
    ensures NonNegative(PecletNumbers(Pecle1(alpha1), Pecle5(mode), roots))
  {
  }

  /** One step of a sum taken from position k on. */
  lemma SumFrom(s: seq<real>, k: nat)
    requires k < |s|
    ensures Sum(s[k..]) == s[k] + Sum(s[k + 1..])
  {
    assert s[k..][1..] == s[k + 1..];
  }

  /** The sum of the nine slots written out. */
  lemma SumOfNine(pe: seq<real>)
    requires |pe| == SlotCount
    ensures Sum(pe) == pe[0] + pe[1] + pe[2] + pe[3] + pe[4] + pe[5] + pe[6] + pe[7] + pe[8]
  {
    assert pe[0..] == pe;
    assert pe[9..] == [];
    SumFrom(pe, 0);
    SumFrom(pe, 1);
    SumFrom(pe, 2);
    SumFrom(pe, 3);
    SumFrom(pe, 4);
    SumFrom(pe, 5);
    SumFrom(pe, 6);
    SumFrom(pe, 7);
    SumFrom(pe, 8);
  }

  /** Averages of estimates that are not negative are not negative. */
  lemma MeansNonNegative(pe: seq<real>)
    requires |pe| == SlotCount && NonNegative(pe)
    ensures 0.0 <= MeanAll(pe) && 0.0 <= MeanFour(pe)
  {
    SumNonNegative(pe);
    MeanSign(MeanAll(pe), CountAll(pe) as real, Sum(pe));
    MeanSign(MeanFour(pe), CountFour(pe) as real, SumFour(pe));
  }

  /** When every counted estimate agrees on one value p (the closed forms that are not
      counted hold 0), both averages are p. */
  lemma MeansOfAgreeingEstimates(pe: seq<real>, p: real)
    requires |pe| == SlotCount
    requires forall i :: 0 <= i < SlotCount && i != 0 && i != 4 ==> pe[i] == p
    requires pe[0] == 0.0 || pe[0] == p
    requires pe[4] == 0.0 || pe[4] == p
    ensures MeanAll(pe) == p && MeanFour(pe) == p
  {
    SumOfNine(pe);
    var e := Excluded(pe);
    assert Sum(pe) == (9 - e) as real * p;
    assert SumFour(pe) == (4 - e) as real * p;
    MeanUnique(MeanAll(pe), p, CountAll(pe) as real, Sum(pe));
    MeanUnique(MeanFour(pe), p, CountFour(pe) as real, SumFour(pe));
  }

  /** The mean over a weight that is not zero is unique. */
  lemma MeanUnique(v: real, p: real, w: real, total: real)
    requires w != 0.0 && MeanOf(v, w, total) && total == w * p
    ensures v == p
  {
  }

  /** Numbers of cells taken as half the average Peclet numbers (Pe = 2 n) are not
      negative when the mode is not negative. */
  lemma CellsNonNegative(a: Apparatus, m: Moments, st: Statistics, roots: seq<RootOutcome>, r: PecletResults)
    requires ValidApparatus(a) && |roots| == 7
    requires r.numbers == PecletNumbers(Pecle1(m.alpha1), Pecle5(st.mode), roots)
    requires r.meanAll == MeanAll(r.numbers) && r.meanFour == MeanFour(r.numbers)
    requires r.cellsAll * 2.0 == r.meanAll && r.cellsFour * 2.0 == r.meanFour
    requires 0.0 <= st.mode
    ensures 0.0 <= r.cellsAll && 0.0 <= r.cellsFour
  {
    SlotsNonNegative(m.alpha1, st.mode, roots);
    MeansNonNegative(r.numbers);
  }
}
