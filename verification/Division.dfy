/** Quotients and remainders. */
module Division {

  /** A multiple that is not zero is at least as far from it. */
  lemma Multiple(P: nat, d: int)
    requires P > 0
    ensures d > 0 ==> P * d >= P
    ensures d < 0 ==> P * d <= 0 - P
  {
  }

  lemma Quotient(n: nat, P: nat, q: nat, r: nat)
    requires P > 0 && n == P * q + r && r < P
    ensures n / P == q && n % P == r
  {
    var d := n / P - q;
    assert P * d == r - n % P;
    Multiple(P, d);
  }
}
