/** How JavaScript writes a natural number in a string. */
module Decimals {
  function Digit(n: nat): char
    requires n < 10
  {
    "0123456789"[n]
  }

  function Decimal(n: nat): string {
    if n < 10 then [Digit(n)] else Decimal(n / 10) + [Digit(n % 10)]
  }

  lemma DigitInjective(a: nat, b: nat)
    requires a < 10 && b < 10 && Digit(a) == Digit(b)
    ensures a == b
  {
    assert "0123456789"[a] == "0123456789"[b];
  }

  lemma {:induction false} DecimalInjective(a: nat, b: nat)
    requires Decimal(a) == Decimal(b)
    ensures a == b
    decreases a
  {
    var da, db := Decimal(a), Decimal(b);
    assert da[|da| - 1] == Digit(a % 10) && db[|db| - 1] == Digit(b % 10);
    DigitInjective(a % 10, b % 10);
    if 10 <= a && 10 <= b {
      assert da[..|da| - 1] == Decimal(a / 10) && db[..|db| - 1] == Decimal(b / 10);
      DecimalInjective(a / 10, b / 10);
    }
  }

  /** Reading digits from left to right. */
  function Read(s: string): int {
    if |s| == 0 then 0 else 10 * Read(s[..|s| - 1]) + (s[|s| - 1] as int - '0' as int)
  }

  lemma DigitReads(n: nat)
    requires n < 10
    ensures Digit(n) as int - '0' as int == n
  {
    assert "0123456789"[n] == "0123456789"[n];
  }

  /** The decimal text reads back as its number, in digits only, without a leading zero. */
  lemma {:induction false} DecimalReads(n: nat)
    ensures Read(Decimal(n)) == n && 0 < |Decimal(n)|
    ensures forall i :: 0 <= i < |Decimal(n)| ==> '0' <= Decimal(n)[i] <= '9'
    ensures Decimal(n)[0] == '0' <==> n == 0
  {
    DigitReads(n % 10);
    if 10 <= n {
      var front := Decimal(n / 10);
      DecimalReads(n / 10);
      assert Decimal(n) == front + [Digit(n % 10)];
      assert Decimal(n)[..|Decimal(n)| - 1] == front;
    } else {
      assert [Digit(n)][..0] == [];
      DigitReads(0);
    }
  }

  /** A hundred times a number is its text with two zeros behind it. */
  lemma HundredTimes(n: nat)
    requires 0 < n
    ensures Decimal(100 * n) == Decimal(n) + "00"
  {
    assert 100 * n / 10 == 10 * n && 100 * n % 10 == 0 && 10 * n / 10 == n && 10 * n % 10 == 0;
    assert Decimal(100 * n) == Decimal(10 * n) + [Digit(0)];
    assert Decimal(10 * n) == Decimal(n) + [Digit(0)];
    assert Digit(0) == '0';
  }
}
