/** Decimal numerals. */
module Decimal {

  predicate IsDigit(c: char) {
    '0' <= c <= '9'
  }

  predicate NumeralOnly(s: string) {
    forall i :: 0 <= i < |s| ==> IsDigit(s[i])
  }

  function DigitChar(d: nat): (c: char)
    requires d < 10
    ensures IsDigit(c)
  {
    '0' + d as char
  }

  /** The shortest numeral of n. */
  function Digits(n: nat): (s: string)
    ensures s != ""
    ensures NumeralOnly(s)
    ensures n > 0 ==> s[0] != '0'
  {
    if n < 10 then [DigitChar(n)] else Digits(n / 10) + [DigitChar(n % 10)]
  }

  function DigitValue(c: char): nat
    requires IsDigit(c)
  {
    c as int - '0' as int
  }

  /** The number a string of digits stands for. */
  function Value(s: string): nat
    requires NumeralOnly(s)
  {
    if s == "" then 0 else 10 * Value(s[..|s| - 1]) + DigitValue(s[|s| - 1])
  }

  lemma {:induction false} ValueOfDigits(n: nat)
    ensures Value(Digits(n)) == n
  {
    var s := Digits(n);
    if n < 10 {
      assert s[..0] == "";
    } else {
      ValueOfDigits(n / 10);
      assert s[..|s| - 1] == Digits(n / 10);
    }
  }

  function Power10(k: nat): nat {
    if k == 0 then 1 else 10 * Power10(k - 1)
  }

  lemma {:induction false} DigitsLength(n: nat, k: nat)
    requires k >= 1 && n < Power10(k)
    ensures |Digits(n)| <= k
  {
    if n >= 10 {
      DigitsLength(n / 10, k - 1);
    }
  }

  function Magnitude(n: int): nat {
    if n < 0 then -n else n
  }

  /** A signed numeral. */
  function Numeral(n: int): (s: string)
    ensures s != ""
  {
    (if n < 0 then "-" else "") + Digits(Magnitude(n))
  }

  lemma NumeralParts(n: int)
    ensures n < 0 <==> Numeral(n)[0] == '-'
    ensures Digits(Magnitude(n)) == if n < 0 then Numeral(n)[1..] else Numeral(n)
  {
  }

  lemma NumeralInjective(a: int, b: int)
    requires Numeral(a) == Numeral(b)
    ensures a == b
  {
    NumeralParts(a);
    NumeralParts(b);
    ValueOfDigits(Magnitude(a));
    ValueOfDigits(Magnitude(b));
  }
}
