/** Python's `str(n)` for integers, as the f-string of the length-mismatch
    message uses it, together with a decimal parser that recovers the number:
    the message can only "report both counts" if the text determines them. */
module Decimal {
  import opened Wrappers

  predicate IsDigit(c: char) {
    '0' <= c <= '9'
  }

  function DigitValue(c: char): (d: nat)
    requires IsDigit(c)
    ensures d < 10
  {
    c as int - '0' as int
  }

  function DigitChar(d: nat): (c: char)
    requires d < 10
    ensures IsDigit(c) && DigitValue(c) == d
  {
    (d + '0' as int) as char
  }

  predicate AllDigits(s: string) {
    forall i :: 0 <= i < |s| ==> IsDigit(s[i])
  }

  /** `str(n)` for n >= 0: the digits, most significant first, no leading zero. */
  function Natural(n: nat): (s: string)
    ensures |s| > 0 && AllDigits(s)
    ensures n < 10 <==> |s| == 1
    decreases n
  {
    if n < 10 then [DigitChar(n)] else Natural(n / 10) + [DigitChar(n % 10)]
  }

  /** `str(n)` for any int: a minus sign before the digits of a negative number. */
  function Show(n: int): (s: string)
    ensures |s| > 0 && (s[0] == '-' <==> n < 0)
    ensures forall i :: 0 <= i < |s| ==> IsDigit(s[i]) || s[i] == '-'
    ensures ' ' !in s
  {
    if n < 0 then "-" + Natural(-n) else Natural(n)
  }

  /** Reads a non-empty run of decimal digits; None on anything else. */
  function ParseNatural(s: string): (r: Option<nat>)
    ensures r.Some? <==> |s| > 0 && AllDigits(s)
    decreases |s|
  {
    if |s| == 0 || !IsDigit(s[|s| - 1]) then None
    else if |s| == 1 then Some(DigitValue(s[0]))
    else
      match ParseNatural(s[..|s| - 1])
      case None => None
      case Some(m) => Some(10 * m + DigitValue(s[|s| - 1]))
  }

  /** Reads an optional minus sign followed by decimal digits. */
  function Parse(s: string): (r: Option<int>)
  {
    if |s| > 0 && s[0] == '-' then
      match ParseNatural(s[1..])
      case None => None
      case Some(m) => Some(-(m as int))
    else
      match ParseNatural(s)
      case None => None
      case Some(m) => Some(m)
  }

  lemma {:induction false} ParseNaturalInvertsNatural(n: nat)
    ensures ParseNatural(Natural(n)) == Some(n)
    decreases n
  {
    if n >= 10 {
      var s := Natural(n);
      assert s[..|s| - 1] == Natural(n / 10);
      ParseNaturalInvertsNatural(n / 10);
    }
  }

  /** The text `str(n)` determines n. */
  lemma ParseInvertsShow(n: int)
    ensures Parse(Show(n)) == Some(n)
  {
    if n < 0 {
      var digits := Natural(-n);
      assert Show(n) == "-" + digits;
      assert ("-" + digits)[1..] == digits;
      ParseNaturalInvertsNatural(-n);
    } else {
      var digits := Natural(n);
      assert Show(n) == digits && IsDigit(digits[0]);
      ParseNaturalInvertsNatural(n);
    }
  }

  lemma ShowInjective(m: int, n: int)
    ensures Show(m) == Show(n) <==> m == n
  {
    ParseInvertsShow(m);
    ParseInvertsShow(n);
  }
}
