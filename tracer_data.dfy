/** The apparatus constants and one tracer experiment, and the two dimensionless
    series every calculation of the analysis starts from: the reduced time
    θ = t / τ and the reduced concentration ψ = Cind · V / Q. */
module TracerData {
  import opened WeightedSums

  /** Apparatus constants: working volume V, mass Q of the injected tracer, nominal mean
      residence time τ, flow velocity v and apparatus length L. */
  datatype Apparatus = Apparatus(volume: real, tracerMass: real, tau: real, velocity: real, length: real)

  /** Every constant of a real apparatus is a positive quantity. */
  predicate ValidApparatus(a: Apparatus)
  {
    0.0 < a.volume && 0.0 < a.tracerMass && 0.0 < a.tau && 0.0 < a.velocity && 0.0 < a.length
  }

  /** One experiment: sampling times t and indicator concentrations Cind, row by row. */
  datatype Series = Series(t: seq<real>, cind: seq<real>)

  /** Both columns of the table have one entry per row. */
  predicate WellFormed(s: Series)
  {
    |s.t| == |s.cind|
  }

  /** The reduced time θ_i = t_i / τ. */
  function Theta(a: Apparatus, s: Series): (theta: seq<real>)
    requires ValidApparatus(a)
    ensures |theta| == |s.t|
    ensures forall i :: 0 <= i < |theta| ==> theta[i] * a.tau == s.t[i]
  {
    Scale(1.0 / a.tau, s.t)
  }

  /** The reduced concentration ψ_i = Cind_i · V / Q. */
  function Psi(a: Apparatus, s: Series): (psi: seq<real>)
    requires ValidApparatus(a)
    ensures |psi| == |s.cind|
    ensures forall i :: 0 <= i < |psi| ==> psi[i] * a.tracerMass == s.cind[i] * a.volume
  {
    Scale(a.volume / a.tracerMass, s.cind)
  }

  /** Times that are not negative give reduced times that are not negative. */
  lemma ThetaNonNegative(a: Apparatus, s: Series)
    requires ValidApparatus(a) && NonNegative(s.t)
    ensures NonNegative(Theta(a, s))
  {
    forall i | 0 <= i < |s.t|
      ensures 0.0 <= Theta(a, s)[i]
    {
      MulNonNegative(1.0 / a.tau, s.t[i]);
    }
  }

  /** Concentrations that are not negative give reduced concentrations that are not negative. */
  lemma PsiNonNegative(a: Apparatus, s: Series)
    requires ValidApparatus(a) && NonNegative(s.cind)
    ensures NonNegative(Psi(a, s))
  {
    forall i | 0 <= i < |s.cind|
      ensures 0.0 <= Psi(a, s)[i]
    {
      MulNonNegative(a.volume / a.tracerMass, s.cind[i]);
    }
  }

  /** The total reduced concentration is the total concentration times V / Q; in
      particular it vanishes exactly when the total concentration does. */
  lemma PsiTotal(a: Apparatus, s: Series)
    requires ValidApparatus(a)
    ensures Sum(Psi(a, s)) == (a.volume / a.tracerMass) * Sum(s.cind)
    ensures Sum(Psi(a, s)) == 0.0 <==> Sum(s.cind) == 0.0
  {
    SumScale(a.volume / a.tracerMass, s.cind);
  }
}
