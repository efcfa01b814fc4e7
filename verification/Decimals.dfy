/** Whole numbers as decimal text. */
module Decimals {
  function Digit(d: nat): char
    requires d < 10
  {
    ['0', '1', '2', '3', '4', '5', '6', '7', '8', '9'][d]
  }

  function Decimal(n: nat): string {
    if n < 10 then [Digit(n)] else Decimal(n / 10) + [Digit(n % 10)]
  }

  function DigitValue(c: char): nat {
    if '0' <= c <= '9' then (c - '0') as nat else 0
  }

  function ParseDecimal(s: string): nat {
    if s == "" then 0 else 10 * ParseDecimal(s[..|s| - 1]) + DigitValue(s[|s| - 1])
  }

  lemma {:induction false} DigitReadsBack(d: nat)
    requires d < 10
    ensures DigitValue(Digit(d)) == d
  {
  }

  lemma {:induction false} ParseAppend(s: string, c: char)
    ensures ParseDecimal(s + [c]) == 10 * ParseDecimal(s) + DigitValue(c)
  {
    assert (s + [c])[..|s|] == s;
  }

  /** The number written in a length header reads back. */
  lemma {:induction false} DecimalReadsBack(n: nat)
    ensures ParseDecimal(Decimal(n)) == n
  {
    hide Digit, DigitValue, ParseDecimal;
    DigitReadsBack(n % 10);
    if n < 10 {
      ParseAppend("", Digit(n));
      assert "" + [Digit(n)] == [Digit(n)];
      ParseNothing();
    } else {
      DecimalReadsBack(n / 10);
      ParseAppend(Decimal(n / 10), Digit(n % 10));
    }
  }

  lemma {:induction false} ParseNothing()
    ensures ParseDecimal("") == 0
  {
  }

  lemma {:induction false} DecimalIsDigits(n: nat)
    ensures forall c :: c in Decimal(n) ==> '0' <= c <= '9'
  {
    if n >= 10 {
      DecimalIsDigits(n / 10);
    }
  }

  /** An integer as str() writes it. */
  function IntText(n: int): string {
    if n < 0 then "-" + Decimal(-n) else Decimal(n)
  }

  lemma {:induction false} MinusMeansNegative(n: int)
    ensures '-' in IntText(n) <==> n < 0
    ensures n < 0 ==> IntText(n)[1..] == Decimal(-n)
  {
    DecimalIsDigits(if n < 0 then -n else n);
  }

  /** Different integers have different texts. */
  lemma {:induction false} IntTextIsInjective(m: int, n: int)
    requires IntText(m) == IntText(n)
    ensures m == n
  {
    MinusMeansNegative(m);
    MinusMeansNegative(n);
    DecimalReadsBack(if m < 0 then -m else m);
    DecimalReadsBack(if n < 0 then -n else n);
  }

  lemma {:induction false} IntTextHasNoColon(n: int)
    ensures ':' !in IntText(n)
  {
    DecimalIsDigits(if n < 0 then -n else n);
  }
}
