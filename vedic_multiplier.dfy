/** The Urdhva Tiryagbhyam ("vertically and crosswise") multiplier of
    Y769_Emp/vedic_multiplier_test.py: a 2x2 block from four one-bit partial
    products, and 4x4 and 8x8 blocks from four half-width blocks each, written
    here as one block function indexed by its level.
    Python's `x >> k` and `x & (2^k - 1)` are floor division and the
    non-negative remainder, which is what Dafny's / and % compute for a
    positive divisor, also on negative x. */
module VedicMultiplier {
  import opened Common

  /** Python's a & 1. */
  function LowBit(a: int): (b: int)
    ensures 0 <= b <= 1
  {
    a % 2
  }

  /** The radix of each half at a level: the arguments of a level-k block are
      split into a low and a high digit in base HalfRadix(k). Level 1 is
      vedic_2x2 (one-bit halves, shifts 1 and 2), level 2 vedic_4x4 (two-bit
      halves, masks 0x3, shifts 2 and 4) and level 3 vedic_8x8 (nibbles, masks
      0xF, shifts 4 and 8). */
  function HalfRadix(level: nat): int
    requires 1 <= level <= 3
  {
    if level == 1 then 2 else if level == 2 then 4 else 16
  }

  /** The three multipliers share one shape: four half-width products,
      vertically (low by low, high by high) and crosswise (high by low, low by
      high), weighted 1, r, r and r^2. Level 0 is the one-bit partial product
      (a & 1) * (b & 1) of vedic_2x2. */
  function Block(level: nat, a: int, b: int): int
    requires level <= 3
  {
    if level == 0 then LowBit(a) * LowBit(b)
    else
      var r := HalfRadix(level);
      var q0 := Block(level - 1, a % r, b % r);
      var q1 := Block(level - 1, (a / r) % r, b % r);
      var q2 := Block(level - 1, a % r, (b / r) % r);
      var q3 := Block(level - 1, (a / r) % r, (b / r) % r);
      q0 + q1 * r + q2 * r + q3 * (r * r)
  }

  function Vedic2x2(a: int, b: int): int
  {
    Block(1, a, b)
  }

  function Vedic4x4(a: int, b: int): int
  {
    Block(2, a, b)
  }

  function Vedic8x8(a: int, b: int): int
  {
    Block(3, a, b)
  }

  // ---------------------------------------------------------------------------
  // Splitting a residue into its low and high digits
  // ---------------------------------------------------------------------------

  /** Two base-m digits below a higher part: a = hi m^2 + (lo m + r) with the
      parenthesised part below m^2. */
  lemma {:induction false} TwoDigits(a: int, m: int, q: int, r: int, hi: int, lo: int)
    requires m > 0 && 0 <= r < m && 0 <= lo < m
    requires a == q * m + r && q == hi * m + lo
    ensures a == hi * (m * m) + (lo * m + r)
    ensures 0 <= lo * m + r < m * m
  {
    assert q * m == hi * (m * m) + lo * m by {
      assert (hi * m + lo) * m == hi * (m * m) + lo * m;
    }
    NonNegativeProduct(lo, m);
    NonNegativeProduct(m - 1 - lo, m);
    assert (m - 1 - lo) * m == m * m - m - lo * m;
  }

  lemma NonNegativeProduct(x: int, y: int)
    requires x >= 0 && y >= 0
    ensures x * y >= 0
  {
  }

  /** a mod m^2 is its low digit plus m times its next digit in base m. */
  lemma SplitResidue(a: int, m: int)
    requires m > 0
    ensures a % (m * m) == a % m + ((a / m) % m) * m
    ensures (a % (m * m)) % m == a % m
    ensures (a % (m * m)) / m == (a / m) % m
  {
    var q, r := a / m, a % m;
    var hi, lo := q / m, q % m;
    TwoDigits(a, m, q, r, hi, lo);
    DivModUnique(a, m * m, hi, lo * m + r);
    DivModUnique(lo * m + r, m, lo, r);
  }

  /** Vertically and crosswise: the product of two two-digit numbers in base
      r is the sum of the four digit products, weighted 1, r, r and r^2; with
      the digits taken from a and b this is the product of a and b modulo r^2. */
  lemma {:induction false} CrosswiseStep(a: int, b: int, r: int, q0: int, q1: int, q2: int, q3: int)
    requires r > 0
    requires q0 == (a % r) * (b % r) && q1 == ((a / r) % r) * (b % r)
    requires q2 == (a % r) * ((b / r) % r) && q3 == ((a / r) % r) * ((b / r) % r)
    ensures q0 + q1 * r + q2 * r + q3 * (r * r) == (a % (r * r)) * (b % (r * r))
  {
    SplitResidue(a, r);
    SplitResidue(b, r);
    var a0, a1, b0, b1 := a % r, (a / r) % r, b % r, (b / r) % r;
    DigitProduct(a0, a1, b0, b1, r);
  }

  /** (x0 + x1 r)(y0 + y1 r) expanded into its four digit products. */
  lemma DigitProduct(x0: int, x1: int, y0: int, y1: int, r: int)
    ensures (x0 + x1 * r) * (y0 + y1 * r) == x0 * y0 + (x1 * y0) * r + (x0 * y1) * r + (x1 * y1) * (r * r)
  {
    var y := y0 + y1 * r;
    assert (x0 + x1 * r) * y == x0 * y + (x1 * r) * y;
    assert x0 * y == x0 * y0 + (x0 * y1) * r;
    assert (x1 * r) * y == (x1 * y0) * r + (x1 * y1) * (r * r);
  }

  // ---------------------------------------------------------------------------
  // Correctness
  // ---------------------------------------------------------------------------

  /** The modulus a block at a level reduces its arguments by: 2, 4, 16, 256. */
  function Radix(level: nat): (m: int)
    requires level <= 3
    ensures m > 0
  {
    if level == 0 then 2 else HalfRadix(level) * HalfRadix(level)
  }

  /** A base-r digit is its own residue. */
  lemma DigitResidue(a: int, r: int)
    requires r > 0
    ensures (a % r) % r == a % r && ((a / r) % r) % r == (a / r) % r
  {
    DivModUnique(a % r, r, 0, a % r);
    DivModUnique((a / r) % r, r, 0, (a / r) % r);
  }

  /** A block multiplies the residues of its arguments modulo its radix. */
  lemma {:induction false} BlockResidue(level: nat, a: int, b: int)
    requires level <= 3
    ensures Block(level, a, b) == (a % Radix(level)) * (b % Radix(level))
  {
    if level > 0 {
      var r := HalfRadix(level);
      assert Radix(level - 1) == r;
      var a0, a1, b0, b1 := a % r, (a / r) % r, b % r, (b / r) % r;
      DigitResidue(a, r);
      DigitResidue(b, r);
      BlockResidue(level - 1, a0, b0);
      BlockResidue(level - 1, a1, b0);
      BlockResidue(level - 1, a0, b1);
      BlockResidue(level - 1, a1, b1);
      CrosswiseStep(a, b, r, Block(level - 1, a0, b0), Block(level - 1, a1, b0), Block(level - 1, a0, b1), Block(level - 1, a1, b1));
    }
  }

  lemma Vedic2x2Correct(a: int, b: int)
    requires 0 <= a < 4 && 0 <= b < 4
    ensures Vedic2x2(a, b) == a * b
  {
    assert Radix(1) == 4 && a % 4 == a && b % 4 == b;
    BlockResidue(1, a, b);
  }

  lemma Vedic4x4Correct(a: int, b: int)
    requires 0 <= a < 16 && 0 <= b < 16
    ensures Vedic4x4(a, b) == a * b
  {
    assert Radix(2) == 16 && a % 16 == a && b % 16 == b;
    BlockResidue(2, a, b);
  }

  /** The headline property: on bytes the 8x8 block is multiplication. */
  lemma Vedic8x8Correct(a: int, b: int)
    requires 0 <= a < 256 && 0 <= b < 256
    ensures Vedic8x8(a, b) == a * b
  {
    assert Radix(3) == 256 && a % 256 == a && b % 256 == b;
    BlockResidue(3, a, b);
  }

  /** Only the low eight bits of each argument matter. */
  lemma Vedic8x8LowBits(a: int, b: int)
    ensures Vedic8x8(a, b) == Vedic8x8(a % 256, b % 256)
  {
    assert Radix(3) == 256;
    assert (a % 256) % 256 == a % 256 && (b % 256) % 256 == b % 256;
    BlockResidue(3, a, b);
    assert Block(3, a, b) == (a % 256) * (b % 256);
    BlockResidue(3, a % 256, b % 256);
    assert Block(3, a % 256, b % 256) == (a % 256) * (b % 256);
  }

  // ---------------------------------------------------------------------------
  // run_tests
  // ---------------------------------------------------------------------------

  /** How many cases the 8x8 block gets right. */
  function MatchCount(tests: seq<(int, int)>): (c: nat)
    ensures c <= |tests|
    ensures c == |tests| <==> forall k :: 0 <= k < |tests| ==> Vedic8x8(tests[k].0, tests[k].1) == tests[k].0 * tests[k].1
  {
    if tests == [] then 0
    else MatchCount(tests[..|tests| - 1]) + (if Vedic8x8(tests[|tests| - 1].0, tests[|tests| - 1].1) == tests[|tests| - 1].0 * tests[|tests| - 1].1 then 1 else 0)
  }

  /** The loop of run_tests over a case list: counts the matching cases and
      reports whether all of them matched. */
  method RunCases(tests: seq<(int, int)>) returns (passed: nat, success: bool)
    ensures passed == MatchCount(tests) && passed <= |tests|
    ensures success <==> forall k :: 0 <= k < |tests| ==> Vedic8x8(tests[k].0, tests[k].1) == tests[k].0 * tests[k].1
  {
    passed := 0;
    for k := 0 to |tests|
      invariant passed == MatchCount(tests[..k])
    {
      assert tests[..k + 1][..k] == tests[..k];
      var (a, b) := tests[k];
      var result := Vedic8x8(a, b);
      var expected := a * b;
      if result == expected {
        passed := passed + 1;
      }
    }
    assert tests[..|tests|] == tests;
    success := passed == |tests|;
  }

  const TestCases: seq<(int, int)> := [
    (0, 0), (1, 1), (2, 3), (15, 15), (127, 127), (255, 255),
    (123, 45), (200, 150), (77, 88), (255, 1), (128, 128)]

  /** run_tests on its eleven listed cases succeeds. */
  method RunTests() returns (success: bool)
    ensures success
  {
    TestCasesAreBytes();
    BytesAgree(TestCases);
    var passed;
    passed, success := RunCases(TestCases);
  }

  lemma TestCasesAreBytes()
    ensures forall k :: 0 <= k < |TestCases| ==> 0 <= TestCases[k].0 < 256 && 0 <= TestCases[k].1 < 256
  {
  }

  /** On any list of byte pairs the 8x8 block agrees with multiplication. */
  lemma BytesAgree(tests: seq<(int, int)>)
    requires forall k :: 0 <= k < |tests| ==> 0 <= tests[k].0 < 256 && 0 <= tests[k].1 < 256
    ensures forall k :: 0 <= k < |tests| ==> Vedic8x8(tests[k].0, tests[k].1) == tests[k].0 * tests[k].1
  {
    forall k | 0 <= k < |tests|
      ensures Vedic8x8(tests[k].0, tests[k].1) == tests[k].0 * tests[k].1
    {
      Vedic8x8Correct(tests[k].0, tests[k].1);
    }
  }
}
