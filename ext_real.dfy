/**
 * Expectations and probabilities as exact reals extended with minus
 * infinity, the value the engine uses for "this decision is not available".
 * The IEEE operations the engine applies to such values are written out:
 * comparison, addition, scaling and maximum.
 */
module ExtReals {
  datatype ExtReal = NegInf | Fin(r: real)

  /** `a < b` on doubles; minus infinity is below every finite value. */
  predicate Less(a: ExtReal, b: ExtReal)
  {
    match (a, b)
    case (NegInf, Fin(_)) => true
    case (Fin(x), Fin(y)) => x < y
    case (_, NegInf) => false
  }

  /** `a <= b`. */
  predicate AtMost(a: ExtReal, b: ExtReal)
  {
    !Less(b, a)
  }

  function Add(a: ExtReal, b: ExtReal): (r: ExtReal)
    ensures r == NegInf <==> a == NegInf || b == NegInf
    ensures a.Fin? && b.Fin? ==> r == Fin(a.r + b.r)
  {
    if a.NegInf? || b.NegInf? then NegInf else Fin(a.r + b.r)
  }

  /**
   * `p * a`. A positive factor keeps minus infinity; a factor of zero or
   * less gives 0 here (IEEE gives NaN or plus infinity, which the engine
   * never produces because its factors are non-negative probabilities that
   * are positive wherever they meet minus infinity).
   */
  function Scale(p: real, a: ExtReal): (r: ExtReal)
    ensures a.Fin? ==> r == Fin(p * a.r)
    ensures a.NegInf? ==> (r == NegInf <==> p > 0.0)
  {
    if a.Fin? then Fin(p * a.r) else if p > 0.0 then NegInf else Fin(0.0)
  }

  /** The larger of two values, the first one on a tie. */
  function Max(a: ExtReal, b: ExtReal): (r: ExtReal)
    ensures AtMost(a, r) && AtMost(b, r)
    ensures r == a || r == b
  {
    if Less(a, b) then b else a
  }

  lemma LessIsStrictOrder(a: ExtReal, b: ExtReal, c: ExtReal)
    ensures !Less(a, a)
    ensures Less(a, b) ==> !Less(b, a)
    ensures Less(a, b) && Less(b, c) ==> Less(a, c)
    ensures Less(a, b) || Less(b, a) || a == b
  {
  }
}
