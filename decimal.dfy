/** Decimal integer text: `strconv.Atoi` on a 64-bit platform, and the text
    PostgreSQL's `integer::TEXT` cast writes. */
module Decimal {
  import opened Wrappers

  const MinInt64: int := -0x8000_0000_0000_0000
  const MaxInt64: int := 0x7FFF_FFFF_FFFF_FFFF

  /** The range of Go's `int` on a 64-bit platform. */
  predicate IsInt64(n: int)
  {
    MinInt64 <= n <= MaxInt64
  }

  predicate IsDigit(c: char)
  {
    '0' <= c <= '9'
  }

  predicate AllDigits(s: string)
  {
    forall i :: 0 <= i < |s| ==> IsDigit(s[i])
  }

  function DigitValue(c: char): (d: nat)
    requires IsDigit(c)
    ensures d < 10
  {
    c as int - '0' as int
  }

  function DigitChar(d: nat): (c: char)
    requires d < 10
    ensures IsDigit(c) && DigitValue(c) == d
  {
    ('0' as int + d) as char
  }

  /** `n = n*10 + digit`, left to right, as strconv's loop accumulates it. */
  function DigitsValue(s: string): nat
    requires AllDigits(s)
  {
    if s == [] then 0 else DigitsValue(s[..|s| - 1]) * 10 + DigitValue(s[|s| - 1])
  }

  /** `strconv.Atoi`: an optional `+` or `-`, then at least one decimal digit,
      with a value that fits a 64-bit int. Any other input is an error (None);
      whether Go reports it as a syntax or a range error is not kept. */
  function Atoi(s: string): Option<int>
  {
    if s == [] then None
    else
      var digits := if s[0] == '-' || s[0] == '+' then s[1..] else s;
      if digits == [] || !AllDigits(digits) then None
      else
        var v: int := DigitsValue(digits);
        var n := if s[0] == '-' then -v else v;
        if IsInt64(n) then Some(n) else None
  }

  /** Decimal text of a natural number, most significant digit first. */
  function NatText(n: nat): string
  {
    if n < 10 then [DigitChar(n)] else NatText(n / 10) + [DigitChar(n % 10)]
  }

  /** `integer::TEXT` in PostgreSQL: a minus sign for negative values. */
  function IntText(n: int): string
  {
    if n < 0 then "-" + NatText(0 - n) else NatText(n)
  }

  lemma {:induction false} NatTextDigits(n: nat)
    ensures |NatText(n)| >= 1 && AllDigits(NatText(n)) && DigitsValue(NatText(n)) == n
    decreases n
  {
    if n >= 10 {
      NatTextDigits(n / 10);
      var s := NatText(n);
      assert s[..|s| - 1] == NatText(n / 10);
      assert s[|s| - 1] == DigitChar(n % 10);
    }
  }

  /** The text never holds a comma, so it can be joined with `,` and split back. */
  lemma IntTextHasNoComma(n: int)
    ensures ',' !in IntText(n)
  {
    NatTextDigits(if n < 0 then -n else n);
  }

  /** `Atoi` reads back every 64-bit value that `IntText` writes. */
  lemma AtoiIntText(n: int)
    requires IsInt64(n)
    ensures Atoi(IntText(n)) == Some(n)
  {
    if n < 0 {
      NatTextDigits(-n);
      assert IntText(n)[1..] == NatText(-n);
    } else {
      NatTextDigits(n);
    }
  }

  /** Atoi rejects the empty string and any character other than a leading sign
      that is not a digit. */
  lemma AtoiRejects(s: string, k: nat)
    requires k < |s| && !IsDigit(s[k]) && !(k == 0 && (s[0] == '-' || s[0] == '+'))
    ensures Atoi(s) == None
  {
    var digits := if s[0] == '-' || s[0] == '+' then s[1..] else s;
    if s[0] == '-' || s[0] == '+' {
      assert digits[k - 1] == s[k];
    } else {
      assert digits[k] == s[k];
    }
  }
}
