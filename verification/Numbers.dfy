/** Unsigned 64-bit words, and decimal numerals. */
module Numbers {

  const U64: nat := 0x1_0000_0000_0000_0000

  type Word = n: nat | n < U64

  predicate Digit(c: char) { '0' <= c <= '9' }

  predicate AllDigits(s: string) { forall i :: 0 <= i < |s| ==> Digit(s[i]) }

  function DigitValue(c: char): (d: nat)
    requires Digit(c)
    ensures d < 10 && DigitOf(d) == c
  {
    c as int - 48
  }

  function DigitOf(d: nat): (c: char)
    requires d < 10
    ensures Digit(c)
  {
    (d + 48) as char
  }

  function Number(s: string): nat
    requires AllDigits(s)
  {
    if s == "" then 0 else Number(s[..|s| - 1]) * 10 + DigitValue(s[|s| - 1])
  }

  function Decimal(n: nat): (s: string)
    ensures s != "" && AllDigits(s)
  {
    if n < 10 then [DigitOf(n)] else Decimal(n / 10) + [DigitOf(n % 10)]
  }

  /** A numeral as it is printed: no leading zero, except in zero itself. */
  predicate Printed(s: string) { AllDigits(s) && s != "" && (|s| > 1 ==> s[0] != '0') }

  lemma {:induction false} NumberDecimal(n: nat)
    ensures Number(Decimal(n)) == n
  {
    if n >= 10 {
      NumberDecimal(n / 10);
      assert Decimal(n)[..|Decimal(n)| - 1] == Decimal(n / 10);
    }
  }

  lemma {:induction false} DecimalPrinted(n: nat)
    ensures Printed(Decimal(n)) && (n > 0 ==> Decimal(n)[0] != '0')
  {
    if n >= 10 {
      DecimalPrinted(n / 10);
    }
  }

  /** A printed numeral that is not zero is positive. */
  lemma {:induction false} PrintedPositive(s: string)
    requires AllDigits(s) && s != "" && s[0] != '0'
    ensures Number(s) > 0
  {
    if |s| > 1 {
      PrintedPositive(s[..|s| - 1]);
    }
  }

  lemma {:induction false} DecimalNumber(s: string)
    requires Printed(s)
    ensures Decimal(Number(s)) == s
  {
    var front, last := s[..|s| - 1], s[|s| - 1];
    assert s == front + [last];
    if |s| > 1 {
      PrintedPositive(front);
      DecimalNumber(front);
      assert Number(s) / 10 == Number(front) && Number(s) % 10 == DigitValue(last);
    }
  }

  function Power(k: nat): nat { if k == 0 then 1 else 10 * Power(k - 1) }

  lemma {:induction false} DecimalLength(n: nat, k: nat)
    requires n < Power(k) && k >= 1
    ensures |Decimal(n)| <= k
  {
    if n >= 10 {
      DecimalLength(n / 10, k - 1);
    }
  }

  lemma WordLength(n: Word)
    ensures |Decimal(n)| <= 20
  {
    assert Power(5) == 100000;
    assert Power(10) == 10000000000;
    assert Power(15) == 1000000000000000;
    DecimalLength(n, 20);
  }
}
