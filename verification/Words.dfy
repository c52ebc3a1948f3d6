/** 64-bit two's complement words, as the generated assembly computes with them, and the 32-bit C
    ints the compiler itself computes with. */
module Words {
  datatype Option<+T> = None | Some(value: T)

  const TWO31: int := 0x8000_0000
  const TWO32: int := 0x1_0000_0000
  const TWO63: int := 0x8000_0000_0000_0000
  const TWO64: int := 0x1_0000_0000_0000_0000

  type Word = x: int | -TWO63 <= x < TWO63
  type CInt = x: int | -TWO31 <= x < TWO31

  function Wrap(x: int): (w: Word)
    ensures -TWO63 <= x < TWO63 ==> w == x
  {
    (x + TWO63) % TWO64 - TWO63
  }

  function WrapInt(x: int): (w: CInt) {
    (x + TWO31) % TWO32 - TWO31
  }

  /** Wrapping finds the one word, or C int, that is congruent to the exact result. */
  lemma WrapMeaning(x: int, w: Word)
    ensures w == Wrap(x) <==> (w - x) % TWO64 == 0
  {
    var q := (x + TWO63) / TWO64;
    assert Wrap(x) == x - TWO64 * q;
    if (w - x) % TWO64 == 0 {
      var r := (w - x) / TWO64;
      assert w == x + TWO64 * r;
    }
  }

  lemma WrapIntMeaning(x: int, w: CInt)
    ensures w == WrapInt(x) <==> (w - x) % TWO32 == 0
  {
    var q := (x + TWO31) / TWO32;
    assert WrapInt(x) == x - TWO32 * q;
    if (w - x) % TWO32 == 0 {
      var r := (w - x) / TWO32;
      assert w == x + TWO32 * r;
    }
  }

  predicate FitsInt(x: int) {
    -TWO31 <= x < TWO31
  }

  /** The two's complement truncation to 32 bits keeps a value exactly when it fits. */
  lemma WrapIntExact(x: int)
    ensures WrapInt(x) == x <==> FitsInt(x)
  {
  }

  // ----- division that truncates toward zero (C, idiv) -----

  function TruncDiv(a: int, b: int): int
    requires b != 0
  {
    if a >= 0 then a / b else -((-a) / b)
  }

  function TruncMod(a: int, b: int): int
    requires b != 0
  {
    a - b * TruncDiv(a, b)
  }

  /** Truncated division is the one quotient whose remainder is smaller than the divisor and has the
      sign of the dividend. */
  lemma TruncDivMeaning(a: int, b: int)
    requires b != 0
    ensures a == b * TruncDiv(a, b) + TruncMod(a, b)
    ensures a >= 0 ==> 0 <= TruncMod(a, b) < (if b < 0 then -b else b)
    ensures a <= 0 ==> -(if b < 0 then -b else b) < TruncMod(a, b) <= 0
  {
    if a >= 0 {
      assert a == b * (a / b) + a % b;
    } else {
      assert -a == b * ((-a) / b) + (-a) % b;
      assert b * -((-a) / b) == -(b * ((-a) / b));
    }
  }

  lemma ProductBound(p: int, m: int)
    requires p > 0
    ensures m >= 1 ==> p * m >= p
    ensures m <= -1 ==> p * m <= -p
    ensures m >= 0 ==> p * m >= m
  {
    if m >= 1 {
      assert p * (m - 1) >= 0;
      assert (p - 1) * m >= 0;
    } else if m <= -1 {
      assert p * (-m - 1) >= 0;
    }
  }

  /** |a / b| <= |a|, and at most half of it when |b| >= 2. */
  lemma QuotientBound(a: int, b: int)
    requires a >= 0 && b != 0
    ensures b > 0 ==> 0 <= a / b <= a
    ensures b < 0 ==> -a <= a / b <= 0
    ensures b < -1 ==> -a <= 2 * (a / b)
  {
    var q := a / b;
    assert a == b * q + a % b;
    if b > 0 {
      ProductBound(b, q);
    } else {
      assert b * q == (-b) * (-q);
      ProductBound(-b, -q);
      if b < -1 && q < 0 {
        assert (-b) * (-q) == (-b - 2) * (-q) + 2 * (-q);
        ProductBound(-q, -b - 2);
      }
    }
  }

  lemma ByMinusOne(a: int)
    ensures a / -1 == -a
    ensures TruncDiv(a, -1) == -a
  {
  }

  lemma TruncDivRange(a: Word, b: Word)
    requires b != 0
    ensures -TWO63 <= TruncDiv(a, b) <= TWO63
    ensures TruncDiv(a, b) == TWO63 <==> a == -TWO63 && b == -1
  {
    var d := if a >= 0 then a as int else 0 - a;
    QuotientBound(d, b);
    var q := d / b;
    if b == -1 {
      ByMinusOne(a);
    }
  }

  /** The one pair of words whose quotient is not a word; the remainder always is one. */
  lemma TruncDivFits(a: Word, b: Word)
    requires b != 0
    ensures -TWO63 <= TruncDiv(a, b) < TWO63 <==> !(a == -TWO63 && b == -1)
    ensures -TWO63 <= TruncMod(a, b) < TWO63
  {
    TruncDivRange(a, b);
    TruncDivMeaning(a, b);
  }

  // ----- bits -----

  function Pow2(k: nat): (p: int)
    ensures p >= 1
    ensures k >= 1 ==> p % 2 == 0
  {
    if k == 0 then 1 else 2 * Pow2(k - 1)
  }

  /** Bitwise and of two numbers with k bits below the sign. */
  function BitAnd(a: int, b: int, k: nat): (r: int)
    ensures -Pow2(k) <= r < Pow2(k)
    decreases k, a, b
  {
    if k == 0 then (if a < 0 && b < 0 then -1 else 0)
    else (if a % 2 == 1 && b % 2 == 1 then 1 else 0) + 2 * BitAnd(a / 2, b / 2, k - 1)
  }

  /** Bitwise or of two numbers with k bits below the sign. */
  function BitOr(a: int, b: int, k: nat): (r: int)
    ensures -Pow2(k) <= r < Pow2(k)
    decreases k, a, b
  {
    if k == 0 then (if a < 0 || b < 0 then -1 else 0)
    else (if a % 2 + b % 2 > 0 then 1 else 0) + 2 * BitOr(a / 2, b / 2, k - 1)
  }

  lemma Pow2At63()
    ensures Pow2(63) == TWO63
    ensures Pow2(31) == TWO31
    ensures Pow2(30) == 0x4000_0000
  {
    assert Pow2(8) == 256;
    assert Pow2(16) == 0x1_0000;
    assert Pow2(24) == 0x100_0000;
    assert Pow2(30) == 0x4000_0000;
    assert Pow2(31) == 0x8000_0000;
    assert Pow2(40) == 0x100_0000_0000;
    assert Pow2(48) == 0x1_0000_0000_0000;
    assert Pow2(56) == 0x100_0000_0000_0000;
  }

  function AndWord(a: Word, b: Word): (w: Word) {
    Pow2At63();
    BitAnd(a, b, 63)
  }

  function OrWord(a: Word, b: Word): (w: Word) {
    Pow2At63();
    BitOr(a, b, 63)
  }

  lemma {:induction false} AndAllOnes(b: int, k: nat)
    requires -Pow2(k) <= b < Pow2(k)
    ensures BitAnd(-1, b, k) == b
    ensures BitAnd(0, b, k) == 0
    decreases k
  {
    if k > 0 {
      assert -Pow2(k - 1) <= b / 2 < Pow2(k - 1);
      AndAllOnes(b / 2, k - 1);
    }
  }

  lemma {:induction false} OrZero(k: nat)
    ensures BitOr(0, 0, k) == 0
  {
    if k > 0 {
      OrZero(k - 1);
    }
  }

  predicate IsBool(w: int) {
    w == 0 || w == 1
  }

  lemma BitwiseOnBits(a: int, b: int, k: nat)
    requires IsBool(a) && IsBool(b) && k >= 1
    ensures BitAnd(a, b, k) == (if a != 0 && b != 0 then 1 else 0)
    ensures BitOr(a, b, k) == (if a != 0 || b != 0 then 1 else 0)
  {
    assert a / 2 == 0 && b / 2 == 0;
    AndAllOnes(0, k - 1);
    OrZero(k - 1);
  }

  /** andq and orq compute the logical connectives when both operands are 0 or 1. */
  lemma {:induction false} BitwiseIsLogical(a: Word, b: Word)
    requires IsBool(a) && IsBool(b)
    ensures AndWord(a, b) == (if a != 0 && b != 0 then 1 else 0)
    ensures OrWord(a, b) == (if a != 0 || b != 0 then 1 else 0)
  {
    hide BitAnd, BitOr, Pow2;
    BitwiseOnBits(a, b, 63);
  }

  // ----- division by a power of two as an arithmetic shift -----

  /** Arithmetic right shift: the floor of the quotient. */
  function Sar(a: int, k: nat): int {
    a / Pow2(k)
  }

  /** What cqo leaves in rdx. */
  function SignMask(a: int): int {
    if a < 0 then -1 else 0
  }

  /** The emitted sequence: sign mask, bias, add, shift. */
  function ShiftDivide(a: Word, k: nat): int
    requires k <= 62
  {
    Pow2Small(k);
    Sar(Wrap(a + AndWord(SignMask(a), Pow2(k) - 1)), k)
  }

  lemma {:induction false} Pow2Mono(i: nat, j: nat)
    requires i <= j
    ensures Pow2(i) <= Pow2(j)
    ensures i < j ==> 2 * Pow2(i) <= Pow2(j)
    decreases j - i
  {
    if i < j {
      Pow2Mono(i + 1, j);
    }
  }

  lemma Pow2Small(k: nat)
    requires k <= 62
    ensures 2 * Pow2(k) <= TWO63
  {
    Pow2Mono(k, 63);
    Pow2At63();
  }

  lemma BiasedFloor(a: int, p: int)
    requires a < 0 && p > 0
    ensures (a + (p - 1)) / p == -((-a) / p)
  {
    var q, r := (-a) / p, (-a) % p;
    assert -a == p * q + r && 0 <= r < p;
    var s := a + (p - 1);
    assert s == p * (-q) + (p - 1 - r);
    var t := s / p;
    assert s == p * t + s % p && 0 <= s % p < p;
    assert p * (t + q) == (p - 1 - r) - s % p;
    ProductBound(p, t + q);
  }

  lemma MaskedBias(a: Word, k: nat)
    requires k <= 62
    ensures Pow2(k) - 1 < TWO63
    ensures AndWord(SignMask(a), (Pow2Small(k); Pow2(k) - 1)) == if a < 0 then Pow2(k) - 1 else 0
  {
    Pow2Small(k);
    Pow2At63();
    AndAllOnes(Pow2(k) - 1, 63);
  }

  /** Shifting with the bias is truncating signed division by 2^k, and the biased sum never
      overflows, for every 64-bit dividend. */
  lemma {:induction false} ShiftIsTruncDiv(a: Word, k: nat)
    requires k <= 62
    ensures -TWO63 <= a + AndWord(SignMask(a), (Pow2Small(k); Pow2(k) - 1)) < TWO63
    ensures ShiftDivide(a, k) == TruncDiv(a, Pow2(k))
  {
    hide Pow2, AndWord;
    Pow2Small(k);
    MaskedBias(a, k);
    if a < 0 {
      BiasedFloor(a, Pow2(k));
    }
  }

  /** The compiler's test on a literal divisor. */
  predicate PowerOfTwoTest(v: CInt) {
    v > 0 && BitAnd(v, v - 1, 31) == 0
  }

  /** Number of trailing zero bits, as __builtin_ctz counts them. */
  function Ctz(v: int): (k: nat)
    requires v > 0
    decreases v
  {
    if v % 2 == 1 then 0 else 1 + Ctz(v / 2)
  }

  lemma {:induction false} AndSelf(a: int, k: nat)
    requires 0 <= a < Pow2(k)
    ensures BitAnd(a, a, k) == a
  {
    if k > 0 {
      AndSelf(a / 2, k - 1);
    }
  }

  lemma {:induction false} LowBitTest(v: int, k: nat)
    requires 0 < v < Pow2(k)
    ensures BitAnd(v, v - 1, k) == 0 <==> v == Pow2(Ctz(v))
    ensures Ctz(v) < k
  {
    if k > 0 {
      if v % 2 == 1 {
        assert v / 2 == (v - 1) / 2;
        AndSelf(v / 2, k - 1);
      } else {
        assert (v - 1) / 2 == v / 2 - 1;
        LowBitTest(v / 2, k - 1);
      }
    }
  }

  lemma {:induction false} CtzOfPow2(k: nat)
    ensures Ctz(Pow2(k)) == k
  {
    if k > 0 {
      CtzOfPow2(k - 1);
    }
  }

  /** The test accepts exactly the powers of two, and then ctz is the exponent. */
  lemma PowerOfTwoTestExact(v: CInt)
    ensures PowerOfTwoTest(v) <==> exists k: nat :: k <= 30 && v == Pow2(k)
    ensures PowerOfTwoTest(v) ==> Ctz(v) <= 30 && v == Pow2(Ctz(v))
  {
    Pow2At63();
    if v > 0 {
      LowBitTest(v, 31);
    }
    if k: nat :| k <= 30 && v == Pow2(k) {
      CtzOfPow2(k);
    }
  }

  function BoolWord(b: bool): (w: Word)
    ensures IsBool(w)
  {
    if b then 1 else 0
  }
}
