/** Small facts about products of reals that the solver does not find alone. */
module Reals {

  lemma NonnegProduct(a: real, b: real)
    requires 0.0 <= a && 0.0 <= b
    ensures 0.0 <= a * b
  {
  }

  lemma PositiveProduct(a: real, b: real)
    requires 0.0 < a && 0.0 < b
    ensures 0.0 < a * b
  {
  }

  /** Scaling by a factor below one shrinks a positive quantity. */
  lemma ShrinkingProduct(a: real, b: real)
    requires 0.0 < a < 1.0 && 0.0 < b
    ensures a * b < b
  {
    PositiveProduct(1.0 - a, b);
  }

  lemma ProductMonotone(a: real, b: real, c: real)
    requires a <= b && 0.0 <= c
    ensures a * c <= b * c
  {
    NonnegProduct(b - a, c);
  }
}
