/**
 host-utils.c: 64x64 to 128-bit multiplication from 32-bit pieces, on machine words modelled
 as bounded integers with every wrap-around written out.
 */
module HostUtils {

  const B32: nat := 0x1_0000_0000
  const B64: nat := 0x1_0000_0000_0000_0000

  type Word = n: nat | n < 0x1_0000_0000_0000_0000
  type SignedWord = n: int | -0x8000_0000_0000_0000 <= n < 0x8000_0000_0000_0000

  /** The 128-bit number held in a (high, low) pair. */
  function Value(low: Word, high: Word): nat { high * B64 + low }

  /** The same pair read as two's complement. */
  function SignedValue(low: Word, high: Word): int {
    if high < 0x8000_0000_0000_0000 then Value(low, high) else Value(low, high) - B128
  }

  const B128: nat := 0x1_0000_0000_0000_0000_0000_0000_0000_0000

  /** A sum of two 128-bit numbers, less its carry. */
  function Wrap(n: nat): int { if n < B128 then n else n - B128 }

  /** add128: the carry out of the low word is found by comparing it with an addend. */
  method Add128(low: Word, high: Word, a: Word, b: Word) returns (plow: Word, phigh: Word)
    ensures Value(plow, phigh) == Wrap(Value(low, high) + Value(a, b))
  {
    plow := WrapWord(low + a);
    phigh := high;
    if plow < a {
      phigh := WrapWord(phigh + 1);
    }
    phigh := WrapWord(phigh + b);
  }

  /** 64-bit wrap-around of a sum of two words. */
  function WrapWord(n: nat): (r: Word)
    requires n < 2 * B64
    ensures r == n % B64
  {
    if n < B64 then n else n - B64
  }

  /** neg128: complement and add one. */
  method Neg128(low: Word, high: Word) returns (plow: Word, phigh: Word)
    ensures Value(plow, phigh) == if Value(low, high) == 0 then 0 else B128 - Value(low, high)
  {
    plow := B64 - 1 - low;
    phigh := B64 - 1 - high;
    plow, phigh := Add128(plow, phigh, 1, 0);
  }

  const MaxPiece: nat := 0xffff_ffff * 0xffff_ffff

  lemma {:induction false} HighRoom(low: Word, high: Word, v: Word)
    requires Value(low, high) + v * B64 < B128
    ensures high + v < B64 && Value(low, high + v) == Value(low, high) + v * B64
  {}

  /** The accumulation of mul64: three additions and a last one into the high word, none overflowing. */
  method Accumulate(v00: Word, v01: Word, v10: Word, v11: Word) returns (plow: Word, phigh: Word)
    requires v00 <= MaxPiece && v01 <= MaxPiece && v10 <= MaxPiece && v11 <= MaxPiece
    ensures Value(plow, phigh) == v11 * B64 + v10 * B32 + v01 * B32 + v00
  {
    plow, phigh := v00, 0;
    assert Value(plow, phigh) == v00;
    hide Value;
    ShiftedValue(v01);
    plow, phigh := Add128(plow, phigh, (v01 * B32) % B64, v01 / B32);
    assert Value(plow, phigh) == v00 + v01 * B32;
    ShiftedValue(v10);
    plow, phigh := Add128(plow, phigh, (v10 * B32) % B64, v10 / B32);
    assert Value(plow, phigh) == v00 + v01 * B32 + v10 * B32;
    HighRoom(plow, phigh, v11);
    phigh := WrapWord(phigh + v11);
  }

  /** mul64: schoolbook multiplication in base 2^32. */
  method Mul64(a: Word, b: Word) returns (plow: Word, phigh: Word)
    ensures Value(plow, phigh) == a * b
  {
    Schoolbook(a, b);
    var a0, a1 := a % B32, a / B32;
    var b0, b1 := b % B32, b / B32;
    plow, phigh := Accumulate(Piece(a0, b0), Piece(a0, b1), Piece(a1, b0), Piece(a1, b1));
  }

  /** The product of two 32-bit pieces. */
  function Piece(x: nat, y: nat): (p: Word)
    requires x < B32 && y < B32
    ensures p == x * y && p <= MaxPiece
  {
    MulLe(x, B32 - 1, y);
    x * y
  }

  lemma {:induction false} MulLe(x: nat, m: nat, y: nat)
    requires x <= m
    ensures x * y <= m * y
  {
    assert m * y - x * y == (m - x) * y;
  }

  lemma {:induction false} ShiftedValue(v: Word)
    ensures Value((v * B32) % B64, v / B32) == v * B32
  {}

  lemma {:induction false} Expand(p: nat, q: nat, r: nat, s: nat)
    ensures (p * B32 + q) * (r * B32 + s) == (p * r) * B64 + (p * s) * B32 + (q * r) * B32 + q * s
  {
    var x := r * B32 + s;
    assert (p * B32 + q) * x == (p * x) * B32 + q * x;
    assert p * x == (p * r) * B32 + p * s;
    assert q * x == (q * r) * B32 + q * s;
  }

  lemma {:induction false} Schoolbook(a: Word, b: Word)
    ensures var a0, a1, b0, b1 := a % B32, a / B32, b % B32, b / B32;
            a * b == Piece(a1, b1) * B64 + Piece(a1, b0) * B32 + Piece(a0, b1) * B32 + Piece(a0, b0)
  {
    Expand(a / B32, a % B32, b / B32, b % B32);
  }

  /** mulu64: the exact 128-bit product. */
  method Mulu64(a: Word, b: Word) returns (plow: Word, phigh: Word)
    ensures Value(plow, phigh) == a * b
  {
    plow, phigh := Mul64(a, b);
  }

  /** Negation of a 64-bit signed number; the minimum is its own negation. */
  function WrapNeg(a: SignedWord): (r: SignedWord)
  {
    if a == -0x8000_0000_0000_0000 then a else -a
  }

  /** A signed argument passed where an unsigned one is expected. */
  function AsWord(a: SignedWord): Word { a % B64 }

  function Abs(a: int): nat { if a < 0 then -a else a }

  lemma {:induction false} AbsProduct(a: SignedWord, b: SignedWord) returns (p: int)
    ensures 0 <= p == Abs(a) * Abs(b) <= 0x8000_0000_0000_0000 * 0x8000_0000_0000_0000
    ensures a * b == if (a < 0) != (b < 0) then -p else p
  {
    p := Abs(a) * Abs(b);
    MulLe(Abs(a), 0x8000_0000_0000_0000, Abs(b));
    if a < 0 {
      assert a * b == -(Abs(a) * b);
      if b < 0 { assert Abs(a) * b == -(Abs(a) * Abs(b)); }
    } else if b < 0 {
      assert a * b == -(a * Abs(b));
    }
  }

  lemma {:induction false} Magnitude(a: SignedWord)
    ensures AsWord(if a < 0 then WrapNeg(a) else a) == Abs(a)
  {}

  /** muls64: the exact signed product in two's complement, the minimum value included. */
  method Muls64(a: SignedWord, b: SignedWord) returns (plow: Word, phigh: Word)
    ensures SignedValue(plow, phigh) == a * b
  {
    hide Value, SignedValue, AsWord, WrapNeg, Abs;
    var sa, x := a < 0, a;
    if sa { x := WrapNeg(x); }
    var sb, y := b < 0, b;
    if sb { y := WrapNeg(y); }
    Magnitude(a); Magnitude(b);
    ghost var p := AbsProduct(a, b);
    plow, phigh := Mul64(AsWord(x), AsWord(y));
    if sa != sb {
      plow, phigh := Neg128(plow, phigh);
      NegativeFits(plow, phigh, p);
    } else {
      PositiveFits(plow, phigh);
    }
  }

  lemma {:induction false} PositiveFits(low: Word, high: Word)
    requires Value(low, high) <= 0x8000_0000_0000_0000 * 0x8000_0000_0000_0000
    ensures SignedValue(low, high) == Value(low, high)
  {}

  lemma {:induction false} NegativeFits(low: Word, high: Word, p: int)
    requires 0 <= p <= 0x8000_0000_0000_0000 * 0x8000_0000_0000_0000
    requires Value(low, high) == if p == 0 then 0 else B128 - p
    ensures SignedValue(low, high) == -p
  {}
}
