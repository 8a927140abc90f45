/**
 * Unsigned 64-bit integers, their decimal rendering (`std::println("{}", n)`)
 * and `std::stoull` with its default base 10, which the sidecar reader uses
 * for the timestamp line and the command-line parser for `-m N`.
 */
module Decimal {
  import opened Results
  import Text

  const U64Modulus: int := 0x1_0000_0000_0000_0000

  /** `uint64_t` / 64-bit `size_t`. */
  newtype u64 = x: int | 0 <= x < 0x1_0000_0000_0000_0000

  predicate IsDigit(c: char) {
    '0' <= c <= '9'
  }

  predicate AllDigits(s: string) {
    forall i :: 0 <= i < |s| ==> IsDigit(s[i])
  }

  function DigitChar(d: nat): (c: char)
    requires d < 10
    ensures IsDigit(c) && (c as int) - ('0' as int) == d
  {
    (('0' as int) + d) as char
  }

  /** The value of a string of decimal digits, most significant first. */
  function DigitsValue(s: string): nat
    requires AllDigits(s)
  {
    if s == [] then 0
    else DigitsValue(s[..|s| - 1]) * 10 + ((s[|s| - 1] as int) - ('0' as int))
  }

  /** The decimal numeral of `n`: no sign, no leading zero, "0" for zero. */
  function ToDecimal(n: nat): (s: string)
    ensures |s| > 0 && AllDigits(s)
    ensures |s| > 1 ==> s[0] != '0'
  {
    if n < 10 then [DigitChar(n)] else ToDecimal(n / 10) + [DigitChar(n % 10)]
  }

  /** Length of the run of digits at the front of `s`. */
  function DigitRun(s: string): (k: nat)
    ensures k <= |s| && AllDigits(s[..k])
    ensures k < |s| ==> !IsDigit(s[k])
  {
    if s == [] || !IsDigit(s[0]) then 0
    else
      var k := 1 + DigitRun(s[1..]);
      assert s[..k] == [s[0]] + s[1..][..k - 1];
      k
  }

  /** What `strtoull` skips before the number: leading `isspace` characters. */
  function SkipSpaces(s: string): (t: string)
    ensures |t| <= |s| && t == s[|s| - |t|..]
    ensures t != [] ==> !Text.IsSpace(t[0])
  {
    if s != [] && Text.IsSpace(s[0]) then SkipSpaces(s[1..]) else s
  }

  datatype StoullError =
    | InvalidArgument  // no digit where the number should start
    | OutOfRange       // the digits denote a value of 2^64 or more

  /**
   * `std::stoull(s)` in base 10: leading whitespace is skipped, one optional
   * sign is accepted, the longest run of digits is converted and anything
   * after it is ignored. A missing number is `invalid_argument`, a value past
   * 2^64 - 1 is `out_of_range`, and a minus sign negates the value modulo 2^64
   * as `strtoull` does, so "-1" gives 2^64 - 1.
   */
  function Stoull(s: string): (r: Result<u64, StoullError>)
    ensures |s| > 0 && AllDigits(s) && DigitsValue(s) < U64Modulus ==> r == Success(DigitsValue(s) as u64)
    ensures |s| > 0 && AllDigits(s) && DigitsValue(s) >= U64Modulus ==> r == Failure(OutOfRange)
    ensures (forall i :: 0 <= i < |s| ==> !IsDigit(s[i])) ==> r == Failure(InvalidArgument)
  {
    var t := SkipSpaces(s);
    assert |s| > 0 && AllDigits(s) ==> t == s && DigitRun(s) == |s| && s[..|s|] == s;
    var signed := t != [] && (t[0] == '+' || t[0] == '-');
    var negative := t != [] && t[0] == '-';
    var body := if signed then t[1..] else t;
    var k := DigitRun(body);
    if k == 0 then Failure(InvalidArgument)
    else
      var v := DigitsValue(body[..k]);
      if v >= U64Modulus then Failure(OutOfRange)
      else if negative && v != 0 then Success((U64Modulus - v) as u64)
      else Success(v as u64)
  }

  /** Reading back a decimal numeral gives the number it was written from. */
  lemma {:induction false} DecimalValue(n: nat)
    ensures DigitsValue(ToDecimal(n)) == n
  {
    if n >= 10 {
      DecimalValue(n / 10);
      var s := ToDecimal(n);
      assert s[..|s| - 1] == ToDecimal(n / 10);
    }
  }

  /** `stoull` undoes `println("{}", n)` for every 64-bit value. */
  lemma StoullDecimal(n: u64)
    ensures Stoull(ToDecimal(n as nat)) == Success(n)
  {
    DecimalValue(n as nat);
  }
}
