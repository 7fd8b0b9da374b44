/** What the app relies on from Kotlin and the JVM: nullable values, awaited calls that
    may throw, 32-bit `Int` and 64-bit `Long` arithmetic, truncating division, and the
    `Int` <-> `String` conversions behind the timer's text fields. */
module Kotlin {

  /** A Kotlin nullable value `T?`. */
  datatype Option<+T> = None | Some(value: T)

  /** The outcome of an awaited SDK call: its value, or the exception it threw, whose
      `message` may be null. */
  datatype Outcome<+T> = Ok(value: T) | Err(message: Option<string>)

  /** A nullable String inside a string template: null is written as "null". */
  function Render(s: Option<string>): string {
    match s
    case Some(v) => v
    case None => "null"
  }

  // ---------------------------------------------------------------------------
  // Fixed-width integers
  // ---------------------------------------------------------------------------

  const TWO_32: int := 0x1_0000_0000

  predicate InInt32(x: int) {
    -0x8000_0000 <= x < 0x8000_0000
  }

  /** Kotlin `Int`. */
  type Int32 = x: int | -0x8000_0000 <= x < 0x8000_0000

  /** Kotlin `Long`. */
  type Int64 = x: int | -0x8000_0000_0000_0000 <= x < 0x8000_0000_0000_0000

  /** The 32-bit two's complement value congruent to `x`: what the JVM keeps of an
      `Int` result that does not fit. */
  function Wrap32(x: int): (r: Int32)
    ensures (x - r) % TWO_32 == 0
    ensures InInt32(x) ==> r == x
  {
    var m := x % TWO_32;
    if m < 0x8000_0000 then m else m - TWO_32
  }

  lemma SumOfMultiples(a: int, b: int)
    requires a % TWO_32 == 0 && b % TWO_32 == 0
    ensures (a + b) % TWO_32 == 0
  {
    assert a == 0x1_0000_0000 * (a / 0x1_0000_0000);
    assert b == 0x1_0000_0000 * (b / 0x1_0000_0000);
    assert a + b == 0x1_0000_0000 * (a / 0x1_0000_0000 + b / 0x1_0000_0000);
  }

  /** Congruent values wrap to the same `Int`. */
  lemma WrapCongruent(x: int, y: int)
    requires (x - y) % TWO_32 == 0
    ensures Wrap32(x) == Wrap32(y)
  {
    var k := (x - y) / 0x1_0000_0000;
    assert x - y == 0x1_0000_0000 * k;
    var d := x % 0x1_0000_0000 - y % 0x1_0000_0000;
    assert d == 0x1_0000_0000 * (k - x / 0x1_0000_0000 + y / 0x1_0000_0000);
    assert -0x1_0000_0000 < d < 0x1_0000_0000;
    assert x % TWO_32 == y % TWO_32;
  }

  /** `a + b` on `Int`. */
  function IntAdd(a: Int32, b: Int32): (sum: Int32)
    ensures InInt32(a + b) ==> sum == a + b
  {
    Wrap32(a + b)
  }

  /** `a * b` on `Int`. */
  function IntMul(a: Int32, b: Int32): (product: Int32)
    ensures InInt32(a * b) ==> product == a * b
  {
    Wrap32(a * b)
  }

  /** `a / b` on `Int` or `Long` for a positive divisor: the quotient rounded toward
      zero, so the remainder takes the sign of `a`. */
  function Quot(a: int, b: int): (q: int)
    requires b > 0
    ensures 0 <= a ==> 0 <= q && q * b <= a < q * b + b
    ensures a < 0 ==> q <= 0 && q * b - b < a <= q * b
  {
    if a >= 0 then a / b else -((-a) / b)
  }

  /** `a % b` on `Int` or `Long` for a positive divisor. */
  function Rem(a: int, b: int): (r: int)
    requires b > 0
    ensures a == Quot(a, b) * b + r
    ensures 0 <= a ==> 0 <= r < b
    ensures a < 0 ==> -b < r <= 0
  {
    a - Quot(a, b) * b
  }

  // ---------------------------------------------------------------------------
  // Decimal text
  // ---------------------------------------------------------------------------

  predicate IsDigit(c: char) {
    '0' <= c <= '9'
  }

  predicate AllDigits(s: string) {
    forall i :: 0 <= i < |s| ==> IsDigit(s[i])
  }

  function DigitChar(d: nat): (c: char)
    requires d < 10
    ensures IsDigit(c)
  {
    ('0' as int + d) as char
  }

  function DigitValue(c: char): nat
    requires IsDigit(c)
  {
    c as int - '0' as int
  }

  /** The value of a string of decimal digits, most significant first. */
  function DigitsValue(s: string): nat
    requires AllDigits(s)
  {
    if s == [] then 0 else 10 * DigitsValue(s[..|s| - 1]) + DigitValue(s[|s| - 1])
  }

  /** The decimal digits of `n` without leading zeros, as `toString` writes them. */
  function NatToString(n: nat): (s: string)
    ensures |s| > 0 && AllDigits(s)
  {
    if n < 10 then [DigitChar(n)] else NatToString(n / 10) + [DigitChar(n % 10)]
  }

  /** `Int.toString()` / `Long.toString()`: a minus sign for negative values. */
  function IntToString(n: int): string {
    if n < 0 then "-" + NatToString(-n) else NatToString(n)
  }

  /** The text `String.toIntOrNull()` accepts: an optional `+` or `-` followed by at
      least one decimal digit. */
  predicate IsNumeral(s: string) {
    |s| > 0 &&
    if s[0] == '-' || s[0] == '+' then |s| > 1 && AllDigits(s[1..]) else AllDigits(s)
  }

  /** The signed value of a numeral. */
  function NumeralValue(s: string): int
    requires IsNumeral(s)
  {
    var magnitude: int := if s[0] == '-' || s[0] == '+' then DigitsValue(s[1..]) else DigitsValue(s);
    if s[0] == '-' then -magnitude else magnitude
  }

  /** `String.toIntOrNull()`, a stand-in for the library's parser: the value of a
      numeral that fits in an `Int`, and null for any other text (empty, a lone sign, a
      non-digit, or an overflowing value). */
  function ToIntOrNull(s: string): Option<Int32> {
    if IsNumeral(s) && InInt32(NumeralValue(s)) then Some(NumeralValue(s)) else None
  }

  lemma {:induction false} DigitsValueOfNatToString(n: nat)
    ensures DigitsValue(NatToString(n)) == n
  {
    var s := NatToString(n);
    if n >= 10 {
      DigitsValueOfNatToString(n / 10);
      assert s[..|s| - 1] == NatToString(n / 10);
    }
  }

  /** Reading back what `toString` wrote gives the same `Int`. */
  lemma ToIntOrNullOfToString(n: Int32)
    ensures ToIntOrNull(IntToString(n)) == Some(n)
  {
    var s := IntToString(n);
    if n < 0 {
      var magnitude: nat := -(n as int);
      var digits := NatToString(magnitude);
      assert s == "-" + digits && s[1..] == digits;
      DigitsValueOfNatToString(magnitude);
      assert IsNumeral(s) && NumeralValue(s) == n;
    } else {
      var digits := NatToString(n);
      assert s == digits && IsDigit(s[0]);
      DigitsValueOfNatToString(n);
      assert IsNumeral(s) && NumeralValue(s) == n;
    }
  }
}
