/** Finite decimal numbers in the three parts that Python's Decimal keeps, and digit strings. */
module Decimals {

  datatype Decimal = Decimal(neg: bool, coeff: nat, exp: int)

  function Pow10(n: nat): (p: nat)
    ensures 1 <= p
  {
    if n == 0 then 1 else 10 * Pow10(n - 1)
  }

  function Magnitude(d: Decimal): real {
    if d.exp >= 0 then d.coeff as real * Pow10(d.exp) as real
    else d.coeff as real / Pow10(-d.exp) as real
  }

  /** The number that a decimal stands for; comparisons between decimals compare these. */
  function Value(d: Decimal): real {
    if d.neg then -Magnitude(d) else Magnitude(d)
  }

  lemma ValueSign(d: Decimal)
    ensures Value(d) < 0.0 <==> d.neg && 0 < d.coeff
    ensures Value(d) == 0.0 <==> d.coeff == 0
  {
    if d.exp < 0 {
      var p := Pow10(-d.exp) as real;
      if 0 < d.coeff {
        assert d.coeff as real / p > 0.0;
      }
    }
  }

  /** Value is the coefficient, with its sign, times ten to the exponent. */
  lemma ValueIsScientific(coeff: nat, exp: int)
    ensures Value(Decimal(false, coeff, 0)) == coeff as real
    ensures Value(Decimal(false, coeff, exp + 1)) == 10.0 * Value(Decimal(false, coeff, exp))
    ensures Value(Decimal(true, coeff, exp)) == -Value(Decimal(false, coeff, exp))
  {
    hide Pow10, Magnitude;
    MagnitudeGrows(coeff, exp);
    MagnitudeOfWhole(coeff);
  }

  lemma MagnitudeOfWhole(coeff: nat)
    ensures Magnitude(Decimal(false, coeff, 0)) == coeff as real
  {
  }

  lemma MagnitudeGrows(coeff: nat, exp: int)
    ensures Magnitude(Decimal(false, coeff, exp + 1)) == 10.0 * Magnitude(Decimal(false, coeff, exp))
    ensures Magnitude(Decimal(true, coeff, exp)) == Magnitude(Decimal(false, coeff, exp))
  {
    var power := if exp >= 0 then exp else -exp - 1;
    var p, q := Pow10(power), Pow10(power + 1);
    assert q == 10 * p;
    assert q as real == 10.0 * p as real;
    assert exp == -1 ==> p == 1;
    hide Pow10;
    TimesTen(coeff as real, p as real);
    if exp == -1 {
      assert Magnitude(Decimal(false, coeff, -1)) == coeff as real / q as real;
      MagnitudeOfWhole(coeff);
    }
  }

  lemma TimesTen(c: real, p: real)
    ensures c * (10.0 * p) == 10.0 * (c * p)
    ensures 0.0 < p ==> 10.0 * (c / (10.0 * p)) == c / p
  {
    if 0.0 < p {
      var q := c / p;
      assert q * p == c;
      assert q / 10.0 * (10.0 * p) == c;
      assert c / (10.0 * p) == q / 10.0;
    }
  }

  predicate IsDigit(c: char) {
    '0' <= c <= '9'
  }

  predicate AllDigits(s: string) {
    forall i :: 0 <= i < |s| ==> IsDigit(s[i])
  }

  function DigitOf(c: char): nat
    requires IsDigit(c)
  {
    c as nat - '0' as nat
  }

  function NatOf(s: string): nat
    requires AllDigits(s)
  {
    if s == [] then 0 else 10 * NatOf(s[..|s| - 1]) + DigitOf(s[|s| - 1])
  }

  function DigitsOf(n: nat): (s: string)
    ensures AllDigits(s) && s != []
  {
    var last := ('0' as nat + n % 10) as char;
    if n < 10 then [last] else DigitsOf(n / 10) + [last]
  }

  lemma {:induction false} NatOfDigitsOf(n: nat)
    ensures NatOf(DigitsOf(n)) == n
  {
    var s := DigitsOf(n);
    if n < 10 {
      assert s[..|s| - 1] == [];
    } else {
      NatOfDigitsOf(n / 10);
      assert s[..|s| - 1] == DigitsOf(n / 10);
    }
  }

  lemma Shift(high: nat, power: nat, low: nat, digit: nat)
    ensures 10 * (high * power + low) + digit == high * (10 * power) + (10 * low + digit)
  {
  }

  lemma {:induction false} NatOfConcat(a: string, b: string)
    requires AllDigits(a) && AllDigits(b)
    ensures AllDigits(a + b)
    ensures NatOf(a + b) == NatOf(a) * Pow10(|b|) + NatOf(b)
  {
    if b == [] {
      assert a + b == a;
    } else {
      var c, d := b[..|b| - 1], DigitOf(b[|b| - 1]);
      NatOfConcat(a, c);
      assert (a + b)[..|a + b| - 1] == a + c;
      Shift(NatOf(a), Pow10(|c|), NatOf(c), d);
    }
  }
}
