/**
 * Decimal text of integers, as Rust's formatting machinery writes an integer
 * with `{}` and as `str::parse::<i32>` reads one back.
 */
module Decimal {
  import opened Kernel

  predicate IsDigit(c: char) { '0' <= c <= '9' }

  predicate AllDigits(s: string) { forall i :: 0 <= i < |s| ==> IsDigit(s[i]) }

  function DigitChar(d: nat): (c: char)
    requires d < 10
    ensures IsDigit(c) && DigitValue(c) == d
  {
    ('0' as int + d) as char
  }

  function DigitValue(c: char): nat
    requires IsDigit(c)
  {
    c as int - '0' as int
  }

  function Pow10(k: nat): (p: nat)
    ensures p >= 1
  {
    if k == 0 then 1 else 10 * Pow10(k - 1)
  }

  /** The number of decimal digits of `n`; zero is written with one digit. */
  function NumDigits(n: nat): nat
  {
    if n < 10 then 1 else 1 + NumDigits(n / 10)
  }

  /** The digits of `n`, most significant first, with no leading zero. */
  function Digits(n: nat): (s: string)
  {
    if n < 10 then [DigitChar(n)] else Digits(n / 10) + [DigitChar(n % 10)]
  }

  /** The number an all-digit string denotes. */
  function Value(s: string): nat
    requires AllDigits(s)
  {
    if s == [] then 0 else Value(s[..|s| - 1]) * 10 + DigitValue(s[|s| - 1])
  }

  /** `{}` applied to an integer: a minus sign for negative values, then the digits. */
  function Format(x: int): (s: string)
    ensures |s| >= 1 && (s[0] == '-' <==> x < 0)
    ensures var body := if x < 0 then s[1..] else s;
      var n := if x < 0 then -x else x;
      AllDigits(body) && |body| == NumDigits(n) >= 1 && Value(body) == n
  {
    var n: nat := if x < 0 then -x else x;
    DigitsCorrect(n);
    if x < 0 then
      assert ("-" + Digits(n))[1..] == Digits(n);
      "-" + Digits(n)
    else Digits(n)
  }

  /**
   * `str::parse::<i32>`: an optional leading `+` or `-`, then at least one
   * ASCII digit and nothing else; the value must lie in the i32 range.
   * Every failure is `None`.
   */
  function ParseI32(s: string): (r: Option<i32>)
    ensures r.Some? ==> |s| >= 1
    ensures r.Some? ==> AllDigits(if s[0] == '-' || s[0] == '+' then s[1..] else s)
  {
    if s == [] then None
    else
      var body := if s[0] == '-' || s[0] == '+' then s[1..] else s;
      if body == [] || !AllDigits(body) then None
      else
        var n: int := Value(body);
        var v := if s[0] == '-' then -n else n;
        if InI32(v) then Some(v) else None
  }

  /** `Digits(n)` is made of NumDigits(n) digits and denotes `n`. */
  lemma {:induction false} DigitsCorrect(n: nat)
    ensures AllDigits(Digits(n)) && |Digits(n)| == NumDigits(n)
    ensures Value(Digits(n)) == n
  {
    if n >= 10 {
      DigitsCorrect(n / 10);
      var s := Digits(n);
      assert s[..|s| - 1] == Digits(n / 10);
    }
  }

  /** NumDigits(n) is the length of the shortest decimal numeral for `n`. */
  lemma {:induction false} NumDigitsBounds(n: nat)
    ensures n < Pow10(NumDigits(n))
    ensures n >= 10 ==> Pow10(NumDigits(n) - 1) <= n
  {
    if n >= 10 {
      NumDigitsBounds(n / 10);
    }
  }

  /** Writing `t` after `s` shifts the value of `s` by |t| decimal places. */
  lemma {:induction false} ValueAppend(s: string, t: string)
    requires AllDigits(s) && AllDigits(t)
    ensures AllDigits(s + t)
    ensures Value(s + t) == Value(s) * Pow10(|t|) + Value(t)
  {
    if t == [] {
      assert s + t == s;
    } else {
      var t' := t[..|t| - 1];
      ValueAppend(s, t');
      var u := s + t;
      assert AllDigits(u);
      assert u[..|u| - 1] == s + t';
      assert u[|u| - 1] == t[|t| - 1];
      var a, p, b, d := Value(s), Pow10(|t'|), Value(t'), DigitValue(t[|t| - 1]);
      assert Value(u) == Value(s + t') * 10 + d;
      assert Value(t) == b * 10 + d;
      assert Pow10(|t|) == p * 10;
      MulShift(a, p, b, d);
    }
  }

  lemma MulShift(a: int, p: int, b: int, d: int)
    ensures (a * p + b) * 10 + d == a * (p * 10) + (b * 10 + d)
  {
  }

  /** An unsigned numeral parses to its value when that value fits. */
  lemma ParseUnsigned(s: string)
    requires s != [] && AllDigits(s)
    ensures ParseI32(s) == if InI32(Value(s)) then Some(Value(s)) else None
  {
    assert IsDigit(s[0]);
  }

  /** A minus sign before a numeral negates its value. */
  lemma ParseNegative(body: string)
    requires body != [] && AllDigits(body)
    ensures var v := -(Value(body) as int); ParseI32("-" + body) == if InI32(v) then Some(v) else None
  {
    assert ("-" + body)[1..] == body;
  }

  /** Parsing what `{}` writes for an i32 gives the i32 back. */
  lemma ParseFormat(x: i32)
    ensures ParseI32(Format(x)) == Some(x)
  {
    var s := Format(x);
    if x < 0 {
      assert s == "-" + s[1..] by {
        assert s == [s[0]] + s[1..];
      }
      ParseNegative(s[1..]);
    } else {
      ParseUnsigned(s);
    }
  }
}
