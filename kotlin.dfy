/** The parts of the Kotlin runtime the timer relies on: nullable values,
    32-bit `Int` wrap-around, `Long` division that truncates toward zero,
    decimal rendering of numbers and `String.toIntOrNull`. */
module Kotlin {

  /** A Kotlin nullable value `T?`. */
  datatype Option<+T> = None | Some(value: T) {
    /** `x ?: default` */
    function GetOr(default: T): T {
      match this
      case Some(v) => v
      case None => default
    }
  }

  const IntMin: int := -0x8000_0000
  const IntMax: int := 0x7fff_ffff

  /** Values of Kotlin's 32-bit `Int`. */
  type Int32 = x: int | -0x8000_0000 <= x <= 0x7fff_ffff

  /** The `Int` that a product or sum `x` wraps around to (two's complement). */
  function WrapInt(x: int): (r: Int32)
    ensures (x - r) % 0x1_0000_0000 == 0
    ensures IntMin <= x <= IntMax ==> r == x
  {
    (x + 0x8000_0000) % 0x1_0000_0000 - 0x8000_0000
  }

  /** `a / d` on `Long`: the quotient truncated toward zero. */
  function Quot(a: int, d: int): (q: int)
    requires d > 0
    ensures a >= 0 ==> q == a / d
    ensures a < 0 ==> q <= 0 && -q == (-a) / d
  {
    if a >= 0 then a / d else -((-a) / d)
  }

  /** `a % d` on `Long`: the remainder takes the sign of `a`. */
  function Rem(a: int, d: int): (r: int)
    requires d > 0
    ensures a >= 0 ==> r == a % d
    ensures a < 0 ==> -d < r <= 0
    ensures a == d * Quot(a, d) + r
  {
    if a >= 0 then a % d else -((-a) % d)
  }

  predicate IsDigit(c: char) {
    '0' <= c <= '9'
  }

  predicate IsSign(c: char) {
    c == '-' || c == '+'
  }

  predicate AllDigits(s: string) {
    forall i :: 0 <= i < |s| ==> IsDigit(s[i])
  }

  function DigitValue(c: char): (d: nat)
    requires IsDigit(c)
    ensures d < 10
  {
    c as int - '0' as int
  }

  function DigitChar(d: nat): (c: char)
    requires d < 10
    ensures IsDigit(c) && DigitValue(c) == d
  {
    ('0' as int + d) as char
  }

  function Pow10(n: nat): (p: nat)
    ensures p >= 1
  {
    if n == 0 then 1 else 10 * Pow10(n - 1)
  }

  /** The number a string of decimal digits denotes. */
  function DigitsValue(s: string): (v: nat)
    requires AllDigits(s)
    ensures v < Pow10(|s|)
  {
    if s == [] then 0 else 10 * DigitsValue(s[..|s| - 1]) + DigitValue(s[|s| - 1])
  }

  /** The decimal digits of a natural number, without leading zeros. */
  function NatToString(n: nat): (s: string)
    ensures |s| >= 1 && AllDigits(s) && DigitsValue(s) == n
    ensures |s| > 1 ==> s[0] != '0'
    ensures n < 10 <==> |s| == 1
  {
    if n < 10 then [DigitChar(n)]
    else
      var init := NatToString(n / 10);
      var s := init + [DigitChar(n % 10)];
      assert s[..|s| - 1] == init;
      s
  }

  /** `Long.toString()`: a minus sign before the digits of a negative number. */
  function LongToString(n: int): (s: string)
    ensures |s| >= 1
    ensures n >= 0 ==> AllDigits(s) && DigitsValue(s) == n
    ensures n < 0 ==> s[0] == '-' && AllDigits(s[1..]) && DigitsValue(s[1..]) == -n
    ensures n >= 0 ==> (|s| == 1 <==> n < 10)
    ensures n >= 0 && |s| > 1 ==> s[0] != '0'
    ensures n < 0 ==> |s| > 1 && s[1] != '0'
  {
    if n < 0 then "-" + NatToString(-n) else NatToString(n)
  }

  /** `String.toIntOrNull()`: an optional sign followed by at least one
      decimal digit, with a value that fits in an `Int`; otherwise null. */
  function ToIntOrNull(s: string): (r: Option<Int32>)
    ensures r.Some? ==> s != []
    ensures AllDigits(s) && 0 < |s| <= 9 ==> r == Some(DigitsValue(s))
    ensures AllDigits(s) && s != [] && DigitsValue(s) <= IntMax ==> r == Some(DigitsValue(s))
    ensures AllDigits(s) && s != [] && DigitsValue(s) > IntMax ==> r == None
    ensures s != [] && !IsSign(s[0]) && !AllDigits(s) ==> r == None
    ensures s != [] && IsSign(s[0]) && (|s| == 1 || !AllDigits(s[1..])) ==> r == None
    ensures |s| > 1 && IsSign(s[0]) && AllDigits(s[1..]) ==>
      var v := if s[0] == '-' then -(DigitsValue(s[1..]) as int) else DigitsValue(s[1..]);
      r == if IntMin <= v <= IntMax then Some(v) else None
  {
    if s == [] then None
    else if IsSign(s[0]) then
      if |s| == 1 || !AllDigits(s[1..]) then None
      else
        var v: int := if s[0] == '-' then -(DigitsValue(s[1..]) as int) else DigitsValue(s[1..]);
        if IntMin <= v <= IntMax then Some(v) else None
    else if AllDigits(s) && DigitsValue(s) <= IntMax then Some(DigitsValue(s))
    else
      DigitsFitInt(s);
      None
  }

  /** Nine decimal digits always fit in an `Int`. */
  lemma DigitsFitInt(s: string)
    ensures AllDigits(s) && |s| <= 9 ==> DigitsValue(s) <= IntMax
  {
    if AllDigits(s) && |s| <= 9 {
      Pow10Monotone(|s|, 9);
    }
  }

  lemma {:induction false} Pow10Monotone(m: nat, n: nat)
    requires m <= n
    ensures Pow10(m) <= Pow10(n)
  {
    if m < n {
      Pow10Monotone(m, n - 1);
    }
  }

  /** Rendering an `Int` and parsing it back gives the number itself. */
  lemma IntToStringRoundTrip(n: Int32)
    ensures ToIntOrNull(LongToString(n)) == Some(n)
  {
    var s := LongToString(n);
    if n < 0 {
      assert s[0] == '-' && |s| > 1;
    } else {
      assert s[0] != '-' && s[0] != '+';
    }
  }
}
