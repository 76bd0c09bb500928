/** Math.round on quotients of integers: floor(n / d + 1/2). */
module Rounding {
  import opened Domain

  function RoundDiv(n: int, d: int): (r: int)
    requires 0 < d
    ensures 2 * n - d < 2 * (d * r) <= 2 * n + d
  {
    var q := (2 * n + d) / (2 * d);
    assert 2 * n + d == 2 * d * q + (2 * n + d) % (2 * d);
    q
  }

  /** The rounded quotient is the only integer within half a unit of the exact one (ties go up). */
  lemma RoundDivUnique(n: int, d: int, r: int)
    requires 0 < d
    requires 2 * n - d < 2 * (d * r) <= 2 * n + d
    ensures r == RoundDiv(n, d)
  {
    var q := RoundDiv(n, d);
    if q < r {
      MulMono(d, q + 1, r);
    } else if r < q {
      MulMono(d, r + 1, q);
    }
  }

  lemma MulMono(d: int, a: int, b: int)
    requires 0 <= d && a <= b
    ensures d * a <= d * b
  {
  }

  /** A share of an amount, rounded, stays between nothing and the whole amount. */
  lemma ShareBounds(amount: nat, part: nat, whole: pos)
    requires part <= whole
    ensures 0 <= RoundDiv(amount * part, whole) <= amount
  {
    var r := RoundDiv(amount * part, whole);
    MulMono(amount, part, whole);
    if r < 0 {
      MulMono(whole, r, -1);
    }
    if amount < r {
      MulMono(whole, amount + 1, r);
    }
  }

  /** The share of the whole amount is the part itself, exactly. */
  lemma WholeShare(part: nat, whole: pos)
    ensures RoundDiv(whole * part, whole) == part
  {
    RoundDivUnique(whole * part, whole, part);
  }
}
