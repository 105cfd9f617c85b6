/** Small shared definitions: an optional value, absolute value on reals and
    the decimal rendering of a natural number (Python's str() on a non-negative int). */
module Common {

  datatype Option<T> = None | Some(value: T)

  function Abs(x: real): (r: real)
    ensures r >= 0.0
    ensures r == x || r == -x
  {
    if x < 0.0 then -x else x
  }

  function DigitChar(d: nat): (c: char)
    requires d < 10
    ensures '0' <= c <= '9'
  {
    "0123456789"[d]
  }

  /** Decimal digits of n, most significant first, without leading zeros. */
  function NatToString(n: nat): (s: string)
    ensures |s| >= 1
    ensures forall k :: 0 <= k < |s| ==> '0' <= s[k] <= '9'
    ensures n < 10 <==> |s| == 1
    decreases n
  {
    if n < 10 then [DigitChar(n)] else NatToString(n / 10) + [DigitChar(n % 10)]
  }

  /** Reading the digits back gives n: the rendering loses nothing. */
  function DigitsValue(s: string): nat
    requires forall k :: 0 <= k < |s| ==> '0' <= s[k] <= '9'
  {
    if s == [] then 0 else DigitsValue(s[..|s| - 1]) * 10 + ((s[|s| - 1] as int) - ('0' as int))
  }

  lemma {:induction false} NatToStringRoundTrip(n: nat)
    ensures DigitsValue(NatToString(n)) == n
    decreases n
  {
    if n >= 10 {
      var s := NatToString(n);
      NatToStringRoundTrip(n / 10);
      assert s[..|s| - 1] == NatToString(n / 10);
      DigitCharValue(n % 10);
    } else {
      DigitCharValue(n);
    }
  }

  /** A digit character stands for its digit. */
  lemma DigitCharValue(d: nat)
    requires d < 10
    ensures (DigitChar(d) as int) - ('0' as int) == d
  {
  }

  /** Distinct numbers render as distinct strings. */
  lemma NatToStringInjective(m: nat, n: nat)
    requires NatToString(m) == NatToString(n)
    ensures m == n
  {
    NatToStringRoundTrip(m);
    NatToStringRoundTrip(n);
  }

  lemma PositiveProduct(p: real, q: real)
    requires p > 0.0 && q > 0.0
    ensures p * q > 0.0
  {
  }

  /** On non-negative reals, squaring preserves and reflects the order. */
  lemma SquareMonotone(x: real, b: real)
    requires x >= 0.0 && b >= 0.0
    ensures x <= b <==> x * x <= b * b
  {
    if b < x {
      PositiveProduct(x - b, x + b);
      assert x * x - b * b == (x - b) * (x + b);
    }
  }

  /** A quotient by a positive base is at most 1 when the numerator is, and is 1 or 0 exactly when the numerator is the base or 0. */
  lemma QuotientFacts(d: real, m: real)
    requires m > 0.0
    ensures d <= m ==> d / m <= 1.0
    ensures d / m == 1.0 <==> d == m
    ensures d / m == 0.0 <==> d == 0.0
  {
  }

  lemma MultipleBounds(d: int, step: int)
    requires step > 0
    ensures d >= 1 ==> d * step >= step
    ensures d <= -1 ==> d * step <= -step
  {
    assert d * step - step == (d - 1) * step;
    assert d * step + step == (d + 1) * step;
  }

  /** Euclidean division is unique: x = q*step + r with 0 <= r < step fixes both. */
  lemma DivModUnique(x: int, step: int, q: int, r: int)
    requires step > 0 && 0 <= r < step && x == q * step + r
    ensures x / step == q && x % step == r
  {
    var q', r' := x / step, x % step;
    assert x == q' * step + r';
    assert (q - q') * step == r' - r;
    MultipleBounds(q - q', step);
  }

  /** x^k on reals (Python's x ** k for a non-negative integer k). */
  function Power(x: real, k: nat): real
  {
    if k == 0 then 1.0 else Power(x, k - 1) * x
  }

  /** A power of a base of at least 1 is at least 1. */
  lemma {:induction false} PowerAtLeastOne(x: real, k: nat)
    requires x >= 1.0
    ensures Power(x, k) >= 1.0
  {
    if k > 0 {
      var p := Power(x, k - 1);
      PowerAtLeastOne(x, k - 1);
      assert p * x - 1.0 == (p - 1.0) * x + (x - 1.0);
      assert (p - 1.0) * x >= 0.0 by {
        if p > 1.0 {
          PositiveProduct(p - 1.0, x);
        }
      }
    }
  }
}
