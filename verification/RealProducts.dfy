/** Products of reals, in the form the other proofs use them. */
module RealProducts {

  /** A product under a name, so that proofs can treat it as one term. */
  function Times(x: real, y: real): real {
    x * y
  }

  lemma NonNegative(a: real, b: real)
    requires a >= 0.0 && b >= 0.0
    ensures a * b >= 0.0
    ensures a > 0.0 && b > 0.0 ==> a * b > 0.0
  {
  }

  lemma Scaled(a: real, b: real, factor: real)
    requires a <= b && factor >= 0.0
    ensures a * factor <= b * factor
  {
    var gap := b - a;
    NonNegative(gap, factor);
    assert gap * factor == b * factor - a * factor;
  }

  lemma TimesScales(a: real, b: real, factor: real)
    requires a <= b && factor >= 0.0
    ensures Times(a, factor) <= Times(b, factor)
  {
    Scaled(a, b, factor);
  }
}
