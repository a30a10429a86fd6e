/** Arithmetic shared by the numeric modules. Products are named, so that proofs
    can treat them as terms and use the laws below one at a time. */
module Arithmetic {

  function Max(a: real, b: real): real { if a < b then b else a }

  function Min(a: real, b: real): real { if b < a then b else a }

  function Abs(a: real): real { if a < 0.0 then -a else a }

  function Product(a: real, b: real): real { a * b }

  function Pow2(n: nat): (p: nat)
    ensures p >= 1
  {
    if n == 0 then 1 else 2 * Pow2(n - 1)
  }

  lemma ProductIsPositive(a: real, b: real)
    requires a > 0.0 && b > 0.0
    ensures Product(a, b) > 0.0
  {}

  lemma ProductIsNotZero(a: real, b: real)
    requires a != 0.0 && b != 0.0
    ensures Product(a, b) != 0.0
  {}

  lemma ProductAdds(a: real, b: real, v: real)
    ensures Product(a + b, v) == Product(a, v) + Product(b, v)
  {}

  lemma ProductCommutes(a: real, b: real)
    ensures Product(a, b) == Product(b, a)
  {}

  lemma ProductOfOne(a: real)
    ensures Product(1.0, a) == a && Product(0.0, a) == 0.0
  {}

  lemma ProductGrows(a: real, b: real, s: real)
    requires a <= b && s >= 0.0
    ensures Product(a, s) <= Product(b, s)
  {
    if s == 0.0 || a == b {
      assert Product(a, s) == Product(b, s);
    } else {
      ProductIsPositive(b - a, s);
      ProductAdds(b - a, a, s);
    }
  }

  lemma QuotientIsPositive(a: real, b: real)
    requires a > 0.0 && b > 0.0
    ensures a / b > 0.0
  {}

  lemma QuotientTimes(a: real, b: real)
    requires b != 0.0
    ensures Product(a / b, b) == a && Product(a, b) / b == a
  {}

  lemma {:induction false} Pow2Grows(a: nat, b: nat)
    requires a <= b
    ensures Pow2(a) <= Pow2(b)
    decreases b
  {
    if a < b { Pow2Grows(a, b - 1); }
  }
}
