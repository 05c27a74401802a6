/** The few JavaScript value notions the two components rely on: optional values,
    thrown errors, `String.prototype.startsWith`, `substring` and numbers as far as
    comparison and truthiness need them. */
module Js {

  datatype Option<+T> = None | Some(value: T)

  /** The outcome of a computation that may throw: `Err` carries the thrown error's message. */
  datatype Result<+T> = Ok(value: T) | Err(message: string)

  /** `s.startsWith(p)` */
  predicate StartsWith(s: string, p: string)
  {
    |p| <= |s| && s[..|p|] == p
  }

  /** A prefix fixes the characters at its positions. */
  lemma StartsWithAt(s: string, p: string, i: nat)
    requires StartsWith(s, p) && i < |p|
    ensures s[i] == p[i]
  {
    assert s[..|p|][i] == s[i];
  }

  /** `s.substring(0, n)` for a non-negative `n` */
  function Substring(s: string, n: nat): (r: string)
    ensures |r| == if n <= |s| then n else |s|
    ensures StartsWith(s, r)
  {
    if n <= |s| then s[..n] else s
  }

  /** A JavaScript number, reduced to what comparisons, `isNaN` and `||` observe
      (negative zero behaves as zero for all of them). */
  datatype Number = NaN | NegInfinity | Finite(value: real) | PosInfinity

  /** `a < b` on numbers: false whenever either side is NaN. */
  predicate Less(a: Number, b: Number)
  {
    match (a, b)
    case (Finite(x), Finite(y)) => x < y
    case (NegInfinity, Finite(_)) => true
    case (NegInfinity, PosInfinity) => true
    case (Finite(_), PosInfinity) => true
    case _ => false
  }

  /** `a <= b` on numbers: false whenever either side is NaN. */
  predicate LessOrEqual(a: Number, b: Number)
  {
    !a.NaN? && !b.NaN? && !Less(b, a)
  }

  /** Truthiness, as `||` and `!` see it: NaN and zero are falsy. */
  predicate Truthy(n: Number)
  {
    match n
    case NaN => false
    case Finite(x) => x != 0.0
    case _ => true
  }
}
