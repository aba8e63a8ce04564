/**
 * Decimal digit strings as JavaScript reads and writes them for naturals:
 * `Number(ds)` on a string of ASCII digits and `n.toString()`.
 */
module Decimal {

  /** The characters `\d` matches in a regular expression without the `u` flag. */
  predicate IsDigit(c: char) {
    '0' <= c <= '9'
  }

  predicate AllDigits(s: string) {
    forall i :: 0 <= i < |s| ==> IsDigit(s[i])
  }

  function DigitValue(c: char): (d: nat)
    requires IsDigit(c)
    ensures d < 10
  {
    (c as int) - ('0' as int)
  }

  function DigitChar(d: nat): (c: char)
    requires d < 10
    ensures IsDigit(c) && DigitValue(c) == d
  {
    (('0' as int) + d) as char
  }

  /** `Number(ds)` for a digit string: base ten, leading zeros ignored, `""` reads as 0. */
  function ValueOf(ds: string): nat
    requires AllDigits(ds)
  {
    if ds == [] then 0 else 10 * ValueOf(ds[..|ds| - 1]) + DigitValue(ds[|ds| - 1])
  }

  /** `n.toString()` for a natural: its decimal digits, most significant first. */
  function ToDecimal(n: nat): (r: string)
    ensures r != [] && AllDigits(r)
  {
    if n < 10 then [DigitChar(n)] else ToDecimal(n / 10) + [DigitChar(n % 10)]
  }

  /** The form `toString` produces: digits only, and no leading zero except in "0" itself. */
  predicate Canonical(ds: string) {
    AllDigits(ds) && ds != [] && (ds[0] == '0' ==> |ds| == 1)
  }

  /** Reading back what `toString` wrote gives the number again. */
  lemma {:induction false} ValueOfToDecimal(n: nat)
    ensures ValueOf(ToDecimal(n)) == n
  {
    if n >= 10 {
      ValueOfToDecimal(n / 10);
      var r := ToDecimal(n);
      assert r[..|r| - 1] == ToDecimal(n / 10);
    }
  }

  lemma {:induction false} ToDecimalCanonical(n: nat)
    ensures Canonical(ToDecimal(n))
  {
    if n >= 10 {
      ToDecimalCanonical(n / 10);
      assert ToDecimal(n)[0] == ToDecimal(n / 10)[0];
    }
  }

  /** A digit string without a leading zero has a positive value. */
  lemma {:induction false} LeadingNonZeroPositive(ds: string)
    requires AllDigits(ds) && ds != [] && ds[0] != '0'
    ensures ValueOf(ds) > 0
  {
    if |ds| > 1 {
      LeadingNonZeroPositive(ds[..|ds| - 1]);
    }
  }

  /** The other direction of the round trip: a canonical digit string is what `toString` writes for its value. */
  lemma {:induction false} ToDecimalOfValue(ds: string)
    requires Canonical(ds)
    ensures ToDecimal(ValueOf(ds)) == ds
  {
    if |ds| > 1 {
      var p, d := ds[..|ds| - 1], DigitValue(ds[|ds| - 1]);
      assert Canonical(p);
      LeadingNonZeroPositive(p);
      ToDecimalOfValue(p);
      var v := ValueOf(ds);
      assert v == 10 * ValueOf(p) + d;
      assert v / 10 == ValueOf(p) && v % 10 == d;
      assert DigitChar(d) == ds[|ds| - 1];
      assert ds == p + [ds[|ds| - 1]];
    } else {
      assert DigitChar(DigitValue(ds[0])) == ds[0];
    }
  }

  /** Different numbers have different decimal strings. */
  lemma ToDecimalInjective(m: nat, n: nat)
    requires ToDecimal(m) == ToDecimal(n)
    ensures m == n
  {
    ValueOfToDecimal(m);
    ValueOfToDecimal(n);
  }
}
