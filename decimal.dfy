/**
 * Decimal text of integers, as Java's `String.valueOf` renders an integral
 * `Number` and as `Long.parseLong` reads it back.
 */
module Decimal {
  import opened Wrappers

  const MinLong: int := -0x8000_0000_0000_0000
  const MaxLong: int := 0x7fff_ffff_ffff_ffff

  predicate IsLong(x: int) {
    MinLong <= x <= MaxLong
  }

  /** Java's `long`. */
  type Long = x: int | IsLong(x)

  predicate IsDigit(c: char) {
    '0' <= c <= '9'
  }

  predicate AllDigits(s: string) {
    forall i :: 0 <= i < |s| ==> IsDigit(s[i])
  }

  function DigitChar(d: nat): (c: char)
    requires d < 10
    ensures IsDigit(c)
  {
    ('0' as int + d) as char
  }

  function DigitValue(c: char): (d: nat)
    requires IsDigit(c)
    ensures d < 10
  {
    c as int - '0' as int
  }

  /** The decimal digits of `n`, most significant first: never empty, and no leading zero. */
  function Digits(n: nat): (s: string)
    ensures |s| > 0 && AllDigits(s)
    ensures s[0] == '0' <==> n == 0
  {
    if n < 10 then [DigitChar(n)] else Digits(n / 10) + [DigitChar(n % 10)]
  }

  /** The number a string of decimal digits denotes. */
  function DigitsValue(s: string): nat
    requires AllDigits(s)
  {
    if s == [] then 0 else DigitsValue(s[..|s| - 1]) * 10 + DigitValue(s[|s| - 1])
  }

  /** `String.valueOf` of an integral number: a minus sign for negatives, then the digits. */
  function Render(x: int): (s: string)
    ensures |s| > 0 && (s[0] == '-' <==> x < 0)
    ensures AllDigits(if x < 0 then s[1..] else s)
  {
    if x < 0 then "-" + Digits(-x) else Digits(x)
  }

  /**
   * `Long.parseLong`: an optional `-` or `+`, then at least one digit; the value
   * must fit in a `long`. `None` stands for the `NumberFormatException`.
   */
  function ParseLong(s: string): (r: Option<Long>)
    ensures r.Some? ==> |s| > 0
    ensures r.Some? && s[0] == '-' ==> r.value <= 0
    ensures r.Some? && s[0] != '-' ==> r.value >= 0
    ensures |s| > 0 && !IsDigit(s[0]) && s[0] != '-' && s[0] != '+' ==> r.None?
  {
    if |s| == 0 then None
    else
      var negative := s[0] == '-';
      var body := if s[0] == '-' || s[0] == '+' then s[1..] else s;
      if |body| == 0 || !AllDigits(body) then None
      else
        var magnitude: int := DigitsValue(body);
        var x := if negative then -magnitude else magnitude;
        if IsLong(x) then Some(x) else None
  }

  lemma {:induction false} DigitsValueOfDigits(n: nat)
    ensures DigitsValue(Digits(n)) == n
  {
    if n >= 10 {
      var s := Digits(n);
      assert s[..|s| - 1] == Digits(n / 10);
      DigitsValueOfDigits(n / 10);
    }
  }

  /** Parsing the rendering of an integer gives it back exactly when it fits in a `long`. */
  lemma ParseRender(x: int)
    ensures ParseLong(Render(x)) == if IsLong(x) then Some(x) else None
  {
    var s := Render(x);
    if x < 0 {
      DigitsValueOfDigits(-x);
      assert s[1..] == Digits(-x);
    } else {
      DigitsValueOfDigits(x);
    }
  }
}
