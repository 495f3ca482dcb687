/** Monotonicity of multiplication, which the solver does not find by itself. */
module Arithmetic {

  lemma MulMono(a: int, b: int, c: nat)
    requires a <= b
    ensures a * c <= b * c
  {
  }

  lemma SquareMono(a: nat, b: nat)
    requires a <= b
    ensures a * a <= b * b
  {
    MulMono(a, b, a);
    MulMono(a, b, b);
  }

  /** An address is its page number and its offset in the page. */
  lemma PageParts(x: int, v: int, off: nat)
    requires x == 4096 * v + off && off < 4096
    ensures x / 4096 == v && x % 4096 == off
  {
  }

  lemma EightParts(x: int, k: int)
    requires x == 8 * k
    ensures x % 8 == 0
  {
  }
}
