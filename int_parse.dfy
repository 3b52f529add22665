/**
 * Rust's `str::parse::<isize>`, that is `isize::from_str_radix(s, 10)`, on a
 * 64-bit target, together with the decimal grammar it accepts.
 */
module IntParse {
  import opened Wrappers

  const ISIZE_MIN: int := -0x8000_0000_0000_0000
  const ISIZE_MAX: int := 0x7FFF_FFFF_FFFF_FFFF

  /**
   * The kind a `ParseIntError` reports. Rust's `IntErrorKind` also has
   * `Zero`, which only the non-zero integer types report.
   */
  datatype IntErrorKind = Empty | InvalidDigit | PosOverflow | NegOverflow

  predicate InIsize(v: int) {
    ISIZE_MIN <= v <= ISIZE_MAX
  }

  /** Only the ASCII digits count, as with `char::to_digit(10)`. */
  predicate IsDigit(c: char) {
    '0' <= c <= '9'
  }

  function DigitValue(c: char): nat
    requires IsDigit(c)
  {
    c as int - '0' as int
  }

  predicate AllDigits(s: string) {
    forall i :: 0 <= i < |s| ==> IsDigit(s[i])
  }

  /** The positional value of a string of digits, most significant first. */
  function DigitsValue(ds: string): nat
    requires AllDigits(ds)
  {
    if ds == [] then 0 else DigitsValue(ds[..|ds| - 1]) * 10 + DigitValue(ds[|ds| - 1])
  }

  predicate HasSign(s: string) {
    |s| > 0 && (s[0] == '+' || s[0] == '-')
  }

  predicate IsNegative(s: string) {
    |s| > 0 && s[0] == '-'
  }

  /** The text after the optional sign. */
  function Magnitude(s: string): string {
    if HasSign(s) then s[1..] else s
  }

  /** The accepted grammar: an optional `+` or `-`, then one or more ASCII digits. */
  predicate IsDecimal(s: string) {
    Magnitude(s) != [] && AllDigits(Magnitude(s))
  }

  /** The value a decimal text denotes, before any range check. */
  function DecimalValue(s: string): int
    requires IsDecimal(s)
  {
    Signed(DigitsValue(Magnitude(s)), IsNegative(s))
  }

  function Signed(v: nat, negative: bool): int {
    if negative then -(v as int) else v
  }

  function OverflowKind(negative: bool): IntErrorKind {
    if negative then NegOverflow else PosOverflow
  }

  /**
   * `isize::from_str_radix(s, 10)`: the empty text is `Empty`, a lone sign
   * is `InvalidDigit`, and otherwise the digits are consumed left to right.
   */
  function ParseIsize(s: string): (r: Result<int, IntErrorKind>)
    ensures r == Err(Empty) <==> s == []
  {
    if s == [] then Err(Empty)
    else if HasSign(s) && |s| == 1 then Err(InvalidDigit)
    else Accumulate(Magnitude(s), 0, IsNegative(s))
  }

  /**
   * The digit loop of `from_str_radix`: each character is first checked to
   * be a digit, then the running value is multiplied by ten and the digit
   * added (subtracted for a negative number), stopping at the first step
   * that leaves the range of `isize`.
   */
  function Accumulate(ds: string, acc: int, negative: bool): (r: Result<int, IntErrorKind>)
    ensures r != Err(Empty)
  {
    if ds == [] then Ok(acc)
    else if !IsDigit(ds[0]) then Err(InvalidDigit)
    else
      var next := if negative then acc * 10 - DigitValue(ds[0]) else acc * 10 + DigitValue(ds[0]);
      if !InIsize(next) then Err(OverflowKind(negative))
      else Accumulate(ds[1..], next, negative)
  }

  /** Appending digits never makes the value smaller. */
  lemma {:induction false} DigitsValueGrows(a: string, b: string)
    requires AllDigits(a + b)
    ensures AllDigits(a) && DigitsValue(a) <= DigitsValue(a + b)
  {
    assert forall i | 0 <= i < |a| :: a[i] == (a + b)[i];
    if b != [] {
      var ab := a + b;
      assert ab[..|ab| - 1] == a + b[..|b| - 1];
      DigitsValueGrows(a, b[..|b| - 1]);
    } else {
      assert a + b == a;
    }
  }

  lemma AppendDigit(pre: string, c: char)
    requires AllDigits(pre) && IsDigit(c)
    ensures AllDigits(pre + [c])
    ensures DigitsValue(pre + [c]) == DigitsValue(pre) * 10 + DigitValue(c)
  {
    assert (pre + [c])[..|pre|] == pre;
  }

  /**
   * After the digits `pre` have been consumed, the loop accepts the rest
   * `ds` exactly when `pre + ds` is all digits with a value in range,
   * returns that value, and reports an out-of-range value as an overflow
   * on the side of its sign.
   */
  lemma {:induction false} AccumulateMeaning(pre: string, ds: string, negative: bool)
    requires AllDigits(pre) && InIsize(Signed(DigitsValue(pre), negative))
    ensures var r := Accumulate(ds, Signed(DigitsValue(pre), negative), negative);
      && (r.Ok? <==> AllDigits(pre + ds) && InIsize(Signed(DigitsValue(pre + ds), negative)))
      && (r.Ok? ==> AllDigits(pre + ds) && r.value == Signed(DigitsValue(pre + ds), negative))
      && (AllDigits(pre + ds) && !InIsize(Signed(DigitsValue(pre + ds), negative)) ==>
            r == Err(OverflowKind(negative)))
    decreases |ds|
  {
    var acc := Signed(DigitsValue(pre), negative);
    if ds == [] {
      assert pre + ds == pre;
    } else if !IsDigit(ds[0]) {
      assert (pre + ds)[|pre|] == ds[0];
    } else {
      var c := ds[0];
      AppendDigit(pre, c);
      var pre' := pre + [c];
      assert pre' + ds[1..] == pre + ds;
      var next := if negative then acc * 10 - DigitValue(c) else acc * 10 + DigitValue(c);
      assert next == Signed(DigitsValue(pre'), negative);
      if !InIsize(next) {
        if AllDigits(pre + ds) {
          DigitsValueGrows(pre', ds[1..]);
        }
      } else {
        AccumulateMeaning(pre', ds[1..], negative);
      }
    }
  }

  /**
   * `parse::<isize>` succeeds exactly on the decimal grammar with a value in
   * the range of `isize`, and then returns that value; a well-formed text
   * out of range fails as an overflow on the side of its sign.
   */
  lemma ParseIsizeMeaning(s: string)
    ensures ParseIsize(s).Ok? <==> IsDecimal(s) && InIsize(DecimalValue(s))
    ensures ParseIsize(s).Ok? ==> IsDecimal(s) && ParseIsize(s).value == DecimalValue(s)
    ensures IsDecimal(s) && !InIsize(DecimalValue(s)) ==>
      ParseIsize(s) == Err(OverflowKind(IsNegative(s)))
  {
    if s != [] && !(HasSign(s) && |s| == 1) {
      var m := Magnitude(s);
      AccumulateMeaning([], m, IsNegative(s));
      assert [] + m == m;
    }
  }
}
