/**
 * The "bad addition" of the kunit sample: both operands are written in
 * decimal one after the other and the text is read back as an i32.
 */
module RustKunit {
  import opened Kernel
  import opened Decimal

  /**
   * `bad_add(a, b)`: parse `"{a}{b}"` as an i32; whatever makes the parse
   * fail is reported as ERANGE.
   */
  function BadAdd(a: i32, b: i32): (r: Result<i32>)
    ensures r.Err? ==> r.error == ERANGE
  {
    match ParseI32(Format(a) + Format(b))
    case Some(v) => Ok(v)
    case None => Err(ERANGE)
  }

  /**
   * The number the concatenated text denotes when `b` is not negative:
   * `a` shifted left by the digits of `b`, with `b` added in the direction
   * of `a`'s sign.
   */
  function Concatenation(a: i32, b: nat): int
  {
    if a >= 0 then a * Pow10(NumDigits(b)) + b else a * Pow10(NumDigits(b)) - b
  }

  /** A negative `b` puts a '-' inside the digits, so the parse always fails. */
  lemma BadAddNegativeRight(a: i32, b: i32)
    requires b < 0
    ensures BadAdd(a, b) == Err(ERANGE)
  {
    var fa, fb := Format(a), Format(b);
    var s := fa + fb;
    var i := if a < 0 then |fa| - 1 else |fa|;
    assert s[i + (if a < 0 then 1 else 0)] == '-';
    if a < 0 {
      assert s[1..][i] == '-';
      assert !AllDigits(s[1..]);
    } else {
      assert IsDigit(s[0]);
      assert !AllDigits(s);
    }
  }

  /**
   * A non-negative `b` always yields well-formed text; the result is the
   * concatenated number when it fits in an i32 and ERANGE otherwise.
   */
  lemma BadAddNonNegativeRight(a: i32, b: i32)
    requires b >= 0
    ensures BadAdd(a, b) ==
      if InI32(Concatenation(a, b)) then Ok(Concatenation(a, b) as i32) else Err(ERANGE)
  {
    if a < 0 {
      ConcatNegativeLeft(a, b);
    } else {
      ConcatNonNegativeLeft(a, b);
    }
  }

  /** `-` then the digits of `-a` then those of `b`: the parse negates the shifted value. */
  lemma ConcatNegativeLeft(a: i32, b: nat)
    requires a < 0
    ensures ParseI32(Format(a) + Format(b)) ==
      if InI32(Concatenation(a, b)) then Some(Concatenation(a, b) as i32) else None
  {
    var fa, fb := Format(a), Format(b);
    var na: nat := -(a as int);
    var body := fa[1..] + fb;
    assert fa + fb == "-" + body by {
      assert fa == [fa[0]] + fa[1..];
    }
    ValueAppend(fa[1..], fb);
    NegateShift(a, na, Pow10(NumDigits(b)), b);
    ParseNegative(body);
  }

  /** The digits of `a` then those of `b`: the parse reads the shifted value. */
  lemma ConcatNonNegativeLeft(a: i32, b: nat)
    requires a >= 0
    ensures ParseI32(Format(a) + Format(b)) ==
      if InI32(Concatenation(a, b)) then Some(Concatenation(a, b) as i32) else None
  {
    var fa, fb := Format(a), Format(b);
    ValueAppend(fa, fb);
    assert Value(fa + fb) == Concatenation(a, b);
    assert IsDigit(fa[0]);
    ParseUnsigned(fa + fb);
  }

  lemma NegateShift(a: int, na: int, p: int, b: int)
    requires na == -a
    ensures -(na * p + b) == a * p - b
  {
  }

  /** The module's own call and the first kunit case: 960 and 110 give 960110. */
  lemma BadAddConcatenatesPositives()
    ensures BadAdd(960, 110) == Ok(960110)
  {
    BadAddNonNegativeRight(960, 110);
    assert NumDigits(110) == 3;
  }

  /** The second kunit case: a negative right operand is an error. */
  lemma BadAddRejectsNegativeRight()
    ensures BadAdd(960, -110).Err?
  {
    BadAddNegativeRight(960, -110);
  }

  /** The third kunit case: -960 and 110 give -960110. */
  lemma BadAddNegativeLeft()
    ensures BadAdd(-960, 110) == Ok(-960110)
  {
    BadAddNonNegativeRight(-960, 110);
    assert NumDigits(110) == 3;
  }

  /** A concatenation that leaves the i32 range is reported as ERANGE. */
  lemma BadAddOverflow()
    ensures BadAdd(2147483647, 0) == Err(ERANGE)
  {
    BadAddNonNegativeRight(2147483647, 0);
  }
}
