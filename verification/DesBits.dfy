/**
 The word operations of d3des.c and the bit-level facts about them. They stand in a module of
 their own so that each fact is proved with nothing else in scope.
 */
module DesBits {
  import opened Words

  /** Complement, as exclusive or with all ones. */
  function Neg(x: bv32): bv32 { Xor(x, 0xffffffff) }

  lemma {:induction false} XorTwice(a: bv32, b: bv32)
    ensures Xor(Xor(a, b), b) == a
  {}

  lemma {:induction false} XorComm(a: bv32, b: bv32)
    ensures Xor(a, b) == Xor(b, a)
  {}

  lemma {:induction false} XorNeg(a: bv32, b: bv32)
    ensures Xor(Neg(a), b) == Neg(Xor(a, b))
  {
    hide Xor;
    XorAssoc(a, 0xffffffff, b); XorComm(0xffffffff, b); XorAssoc(a, b, 0xffffffff);
  }

  // ----- delta swaps: work = ((l >> n) ^ r) & mask; r ^= work; l ^= work << n

  function Work4(l: bv32, r: bv32): bv32 { ((l >> 4) ^ r) & 0x0f0f0f0f }
  function Work16(l: bv32, r: bv32): bv32 { ((l >> 16) ^ r) & 0x0000ffff }
  function Work2(l: bv32, r: bv32): bv32 { ((l >> 2) ^ r) & 0x33333333 }
  function Work8(l: bv32, r: bv32): bv32 { ((l >> 8) ^ r) & 0x00ff00ff }
  function Work1(l: bv32, r: bv32): bv32 { (l ^ r) & 0xaaaaaaaa }

  function Shl4(w: bv32): bv32 { w << 4 }
  function Shl16(w: bv32): bv32 { w << 16 }
  function Shl2(w: bv32): bv32 { w << 2 }
  function Shl8(w: bv32): bv32 { w << 8 }

  // Swapping twice finds the same work value.
  lemma {:induction false} Work4Same(l: bv32, r: bv32)
    ensures Work4(Xor(l, Shl4(Work4(l, r))), Xor(r, Work4(l, r))) == Work4(l, r)
  {}

  lemma {:induction false} Work16Same(l: bv32, r: bv32)
    ensures Work16(Xor(l, Shl16(Work16(l, r))), Xor(r, Work16(l, r))) == Work16(l, r)
  {}

  lemma {:induction false} Work2Same(l: bv32, r: bv32)
    ensures Work2(Xor(l, Shl2(Work2(l, r))), Xor(r, Work2(l, r))) == Work2(l, r)
  {}

  lemma {:induction false} Work8Same(l: bv32, r: bv32)
    ensures Work8(Xor(l, Shl8(Work8(l, r))), Xor(r, Work8(l, r))) == Work8(l, r)
  {}

  lemma {:induction false} Work1Same(l: bv32, r: bv32)
    ensures Work1(Xor(l, Work1(l, r)), Xor(r, Work1(l, r))) == Work1(l, r)
  {}

  lemma {:induction false} Work1Symmetric(l: bv32, r: bv32)
    ensures Work1(l, r) == Work1(r, l)
  {}

  lemma {:induction false} Work4Neg(l: bv32, r: bv32)
    ensures Work4(Neg(l), Neg(r)) == Work4(l, r)
  {}

  lemma {:induction false} Work16Neg(l: bv32, r: bv32)
    ensures Work16(Neg(l), Neg(r)) == Work16(l, r)
  {}

  lemma {:induction false} Work2Neg(l: bv32, r: bv32)
    ensures Work2(Neg(l), Neg(r)) == Work2(l, r)
  {}

  lemma {:induction false} Work8Neg(l: bv32, r: bv32)
    ensures Work8(Neg(l), Neg(r)) == Work8(l, r)
  {}

  lemma {:induction false} Work1Neg(l: bv32, r: bv32)
    ensures Work1(Neg(l), Neg(r)) == Work1(l, r)
  {}

  // ----- rotations

  function Rotl1(x: bv32): bv32 { (x << 1) | ((x >> 31) & 1) }
  function Rotr1(x: bv32): bv32 { (x << 31) | (x >> 1) }
  function Rot4(x: bv32): bv32 { (x << 28) | (x >> 4) }

  lemma {:induction false} RotUndo(x: bv32)
    ensures Rotl1(Rotr1(x)) == x && Rotr1(Rotl1(x)) == x
  {}

  lemma {:induction false} Rotl1Neg(x: bv32)
    ensures Rotl1(Neg(x)) == Neg(Rotl1(x))
  {}

  lemma {:induction false} Rotr1Neg(x: bv32)
    ensures Rotr1(Neg(x)) == Neg(Rotr1(x))
  {}

  lemma {:induction false} Rot4Neg(x: bv32)
    ensures Rot4(Neg(x)) == Neg(Rot4(x))
  {}

  // ----- box indices

  function Index0(w: bv32): bv32 { w & 0x3f }
  function Index1(w: bv32): bv32 { (w >> 8) & 0x3f }
  function Index2(w: bv32): bv32 { (w >> 16) & 0x3f }
  function Index3(w: bv32): bv32 { (w >> 24) & 0x3f }

  /** The complement of w within the bits of m. */
  function Within(m: bv32, w: bv32): bv32 { m & !w }

  // Complementing a half and its key bits leaves every box index alone.
  lemma {:induction false} Index0Neg(x: bv32, k: bv32)
    ensures Index0(Xor(Neg(x), Within(0x3f3f3f3f, k))) == Index0(Xor(x, k))
  {}

  lemma {:induction false} Index1Neg(x: bv32, k: bv32)
    ensures Index1(Xor(Neg(x), Within(0x3f3f3f3f, k))) == Index1(Xor(x, k))
  {}

  lemma {:induction false} Index2Neg(x: bv32, k: bv32)
    ensures Index2(Xor(Neg(x), Within(0x3f3f3f3f, k))) == Index2(Xor(x, k))
  {}

  lemma {:induction false} Index3Neg(x: bv32, k: bv32)
    ensures Index3(Xor(Neg(x), Within(0x3f3f3f3f, k))) == Index3(Xor(x, k))
  {}

  // ----- cookey on one pair of raw words

  function Cook0(l: bv32, r: bv32): bv32 {
    ((l & 0x00fc0000) << 6) | ((l & 0x00000fc0) << 10) | ((r & 0x00fc0000) >> 10) | ((r & 0x00000fc0) >> 6)
  }

  function Cook1(l: bv32, r: bv32): bv32 {
    ((l & 0x0003f000) << 12) | ((l & 0x0000003f) << 16) | ((r & 0x0003f000) >> 4) | (r & 0x0000003f)
  }

  lemma {:induction false} Cook0Within(l: bv32, r: bv32)
    ensures Cook0(0xffffff & !l, 0xffffff & !r) == 0x3f3f3f3f & !Cook0(l, r)
  {}

  lemma {:induction false} Cook1Within(l: bv32, r: bv32)
    ensures Cook1(0xffffff & !l, 0xffffff & !r) == 0x3f3f3f3f & !Cook1(l, r)
  {}

  // ----- packing bits from bit 23 downwards

  function Or(w: bv32, c: bv32): bv32 { w | c }

  predicate Covers(m: bv32, w: bv32) { w & m == w }

  lemma {:induction false} SetBoth(w: bv32, m: bv32, c: bv32)
    requires m & c == 0
    ensures (m | c) & !(w | c) == m & !w
  {}

  lemma {:induction false} WithinOrSet(w: bv32, m: bv32, c: bv32)
    requires m & c == 0
    ensures Within(m | c, w | c) == Within(m, w)
  {
    SetBoth(w, m, c);
  }

  lemma {:induction false} WithinOrClear(w: bv32, m: bv32, c: bv32)
    requires m & c == 0 && w & m == w
    ensures Within(m | c, w) == Within(m, w) | c
  {}

  lemma {:induction false} CoversOr(w: bv32, m: bv32, c: bv32)
    requires w & m == w
    ensures Covers(m | c, w | c) && Covers(m | c, w)
  {}

  predicate OneBit(b: bv32) { b & (b - 1) == 0 && 1 <= b <= 0x800000 }

  lemma {:induction false} HalveBit(b: bv32)
    requires OneBit(b) && b >= 2
    ensures OneBit(b >> 1)
  {}

  /** All bits from bit 23 down to b, and then also the next one. */
  lemma {:induction false} MaskStep(b: bv32)
    requires OneBit(b) && b >= 2
    ensures (0x1000000 - b) & (b >> 1) == 0
    ensures Or(0x1000000 - b, b >> 1) == 0x1000000 - (b >> 1)
  {}
}
