/** Decimal digit strings and the numbers they denote. */
module Decimals {

  predicate IsDigit(c: char) {
    '0' <= c <= '9'
  }

  predicate AllDigits(s: string) {
    forall i :: 0 <= i < |s| ==> IsDigit(s[i])
  }

  function DigitValue(c: char): nat
    requires IsDigit(c)
  {
    c as int - '0' as int
  }

  /** The number a digit string denotes; leading zeros do not matter. */
  function Denoted(s: string): nat
    requires AllDigits(s)
  {
    if s == [] then 0 else 10 * Denoted(s[..|s| - 1]) + DigitValue(s[|s| - 1])
  }

  /** The shortest digit string of a number. */
  function Decimal(n: nat): (s: string)
    ensures s != "" && AllDigits(s)
  {
    var digit := '0' + (n % 10) as char;
    if n < 10 then [digit] else Decimal(n / 10) + [digit]
  }

  lemma {:induction false} DecimalMeaning(n: nat)
    ensures Denoted(Decimal(n)) == n
  {
    var s := Decimal(n);
    if n < 10 {
      assert s[..0] == "";
    } else {
      DecimalMeaning(n / 10);
      assert s[..|s| - 1] == Decimal(n / 10);
    }
  }

  lemma DigitsAreUnique(m: nat, x: nat, n: nat, y: nat)
    requires x < 10 && y < 10 && 10 * m + x == 10 * n + y
    ensures m == n && x == y
  {
  }

  /** Strings of one length that denote the same number are the same. */
  lemma {:induction false} DenotedInjective(a: string, b: string)
    requires |a| == |b| && AllDigits(a) && AllDigits(b) && Denoted(a) == Denoted(b)
    ensures a == b
  {
    if a != [] {
      var init, init', x, y := a[..|a| - 1], b[..|b| - 1], DigitValue(a[|a| - 1]), DigitValue(b[|b| - 1]);
      DigitsAreUnique(Denoted(init), x, Denoted(init'), y);
      DenotedInjective(init, init');
      assert a == init + [a[|a| - 1]] && b == init' + [b[|b| - 1]];
    }
  }
}
