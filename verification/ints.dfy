/**
 * Go's fixed-width integers and the decimal conversions the core uses
 * (`strconv.Atoi`, and `strconv.FormatInt` through `intToString` in
 * `utils_text.go`). Dafny integers are unbounded, so every wrap-around,
 * clamp and range is written out here.
 */
module Ints {
  import opened Text

  const MaxUint64: int := 0xffff_ffff_ffff_ffff

  /** Go's `uint64`. */
  type u64 = n: int | 0 <= n <= MaxUint64

  const MinInt64: int := -0x8000_0000_0000_0000
  const MaxInt64: int := 0x7fff_ffff_ffff_ffff
  const TwoTo64: int := 0x1_0000_0000_0000_0000

  /** Go's `int64` (and `int`, which is 64 bits wide on the targets the server runs on). */
  type i64 = n: int | MinInt64 <= n <= MaxInt64

  predicate IsInt64(n: int) {
    MinInt64 <= n <= MaxInt64
  }

  /** Two's-complement wrap-around of a Go `int` (64 bits wide) after an addition. */
  function Wrap64(n: int): (r: int)
    ensures IsInt64(r)
    ensures IsInt64(n) ==> r == n
    ensures (r - n) % TwoTo64 == 0
  {
    (n - MinInt64) % TwoTo64 + MinInt64
  }

  predicate IsDigit(ch: char) {
    '0' <= ch <= '9'
  }

  predicate AllDigits(s: string) {
    forall i :: 0 <= i < |s| ==> IsDigit(s[i])
  }

  /** The value of a run of decimal digits, most significant first. */
  function DigitsValue(s: string): nat
    requires AllDigits(s)
  {
    if |s| == 0 then 0 else DigitsValue(s[..|s| - 1]) * 10 + (s[|s| - 1] as int - '0' as int)
  }

  /** The text `strconv.Atoi` accepts: an optional sign, then at least one decimal digit. */
  predicate IsDecimal(s: string) {
    var digits := if |s| > 0 && (s[0] == '+' || s[0] == '-') then s[1..] else s;
    |digits| > 0 && AllDigits(digits)
  }

  /** What `strconv.ParseInt` returns alongside a range error: the nearest 64-bit value. */
  function Clamp64(n: int): (r: int)
    ensures IsInt64(r)
    ensures IsInt64(n) ==> r == n
    ensures n > MaxInt64 ==> r == MaxInt64
    ensures n < MinInt64 ==> r == MinInt64
  {
    if n > MaxInt64 then MaxInt64 else if n < MinInt64 then MinInt64 else n
  }

  /**
   * `strconv.Atoi` with its error discarded, as `decodeDbErr` uses it: 0 for
   * text that is not a decimal, the nearest 64-bit value for one out of range.
   */
  function Atoi(s: string): (r: int)
    ensures IsInt64(r)
    ensures !IsDecimal(s) ==> r == 0
  {
    if !IsDecimal(s) then 0
    else if s[0] == '-' then Clamp64(-(DigitsValue(s[1..]) as int))
    else if s[0] == '+' then Clamp64(DigitsValue(s[1..]))
    else Clamp64(DigitsValue(s))
  }

  lemma {:induction false} DigitsOfNat(n: nat)
    ensures AllDigits(NatToString(n)) && DigitsValue(NatToString(n)) == n
  {
    var s := NatToString(n);
    if n >= 10 {
      DigitsOfNat(n / 10);
      assert s[..|s| - 1] == NatToString(n / 10);
    }
  }

  /** `Atoi` reads back what `strconv.FormatInt` writes, for every 64-bit value. */
  lemma AtoiFormatInt(n: int)
    requires IsInt64(n)
    ensures Atoi(IntToString(n)) == n
  {
    var s := IntToString(n);
    if n < 0 {
      DigitsOfNat(-n);
      assert s[1..] == NatToString(-n);
    } else {
      DigitsOfNat(n);
    }
  }
}
