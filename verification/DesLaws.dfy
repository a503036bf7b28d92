/**
 Two laws of the DES key schedule as d3des.c computes it, for arbitrary SP tables: the top bit
 of every key byte is ignored, and complementing key and block complements the result.
 */
module DesLaws {
  import opened Words
  import opened DesBits
  import opened Des
  import opened DesKeys

  // ----- the parity bits

  lemma {:induction false} BitBelowSeven(a: bv8, b: bv8, m: nat)
    requires a & 0x7f == b & 0x7f && m < 7
    ensures a & ByteBit[m] == b & ByteBit[m]
  {
    if m == 0 {} else if m == 1 {} else if m == 2 {} else if m == 3 {} else if m == 4 {} else if m == 5 {} else {}
  }

  lemma {:induction false} SelectedIgnoresParity(key: seq<bv8>, key': seq<bv8>)
    requires |key| == |key'| == 8 && forall i :: 0 <= i < 8 ==> key[i] & 0x7f == key'[i] & 0x7f
    ensures Selected(key) == Selected(key')
  {
    hide Pc1, ByteBit;
    forall j | 0 <= j < 56
      ensures KeyBit(key, Pc1(j)) == KeyBit(key', Pc1(j))
    {
      var l := Pc1(j);
      BitBelowSeven(key[l / 8], key'[l / 8], l % 8);
    }
  }

  lemma {:induction false} RegistersIgnoreParity(key: seq<bv8>, key': seq<bv8>, i: nat)
    requires |key| == |key'| == 8 && i <= 16 && Selected(key) == Selected(key')
    ensures Registers(key, i) == Registers(key', i)
  {
    hide Selected, RotBoth, Shift;
    if i > 0 { RegistersIgnoreParity(key, key', i - 1); }
  }

  /** Keys that agree on the low seven bits of every byte have the same schedule. */
  lemma {:induction false} ParityIgnored(key: seq<bv8>, key': seq<bv8>)
    requires |key| == |key'| == 8 && forall i :: 0 <= i < 8 ==> key[i] & 0x7f == key'[i] & 0x7f
    ensures KeyPairs(key) == KeyPairs(key')
  {
    hide Selected, Registers, Cook, Packed, Pc2;
    SelectedIgnoresParity(key, key');
    forall i | 0 <= i < 16
      ensures RawPair(key, i) == RawPair(key', i)
    {
      RegistersIgnoreParity(key, key', i + 1);
    }
  }

  // ----- complementation

  function Not(p: Pair): Pair { Pair(Neg(p.l), Neg(p.r)) }

  function NotBytes(b: seq<bv8>): (r: seq<bv8>)
    ensures |r| == |b|
  {
    seq(|b|, i requires 0 <= i < |b| => !b[i])
  }

  function Flip(s: seq<bool>): (r: seq<bool>)
    ensures |r| == |s| && forall i :: 0 <= i < |s| ==> r[i] == !s[i]
  {
    seq(|s|, i requires 0 <= i < |s| => !s[i])
  }

  function FlipKey(k: Pair): Pair { Pair(Within(0x3f3f3f3f, k.l), Within(0x3f3f3f3f, k.r)) }

  lemma {:induction false} NotBit(b: bv8, m: nat)
    requires m < 8
    ensures (!b & ByteBit[m] != 0) == (b & ByteBit[m] == 0)
  {
    if m == 0 {} else if m == 1 {} else if m == 2 {} else if m == 3 {}
    else if m == 4 {} else if m == 5 {} else if m == 6 {} else {}
  }

  lemma {:induction false} SelectedFlips(key: seq<bv8>)
    requires |key| == 8
    ensures Selected(NotBytes(key)) == Flip(Selected(key))
  {
    hide Pc1, ByteBit;
    forall j | 0 <= j < 56
      ensures KeyBit(NotBytes(key), Pc1(j)) == !KeyBit(key, Pc1(j))
    {
      var l := Pc1(j);
      NotBit(key[l / 8], l % 8);
    }
  }

  lemma {:induction false} RotBothFlips(cd: seq<bool>, n: nat)
    requires |cd| == 56 && n <= 28
    ensures RotBoth(Flip(cd), n) == Flip(RotBoth(cd, n))
  {}

  lemma {:induction false} RegistersFlip(key: seq<bv8>, i: nat)
    requires |key| == 8 && i <= 16
    ensures Registers(NotBytes(key), i) == Flip(Registers(key, i))
  {
    hide Selected, RotBoth, Shift, Flip;
    if i == 0 {
      SelectedFlips(key);
    } else {
      TotrotSums(i - 1);
      RegistersFlip(key, i - 1);
      RotBothFlips(Registers(key, i - 1), Shift(i - 1));
    }
  }

  // Packing complemented bits complements the packed word within its 24 bits.

  lemma {:induction false} BigByteNonzero(j: nat)
    requires j < 24
    ensures BigByte(j) != 0
    decreases 24 - j
  {
    if j == 23 {
      assert BigByte(4) == 0x80000 && BigByte(8) == 0x8000;
      assert BigByte(12) == 0x800 && BigByte(16) == 0x80 && BigByte(20) == 8;
    } else {
      BigByteNonzero(j + 1);
    }
  }

  /** The bits that the first n packing steps can set. */
  function TopMask(n: nat): bv32
    requires n <= 24
  {
    if n == 0 then 0 else Or(TopMask(n - 1), BigByte(n - 1))
  }

  lemma {:induction false} TopMaskValue(n: nat)
    requires 1 <= n <= 24
    ensures OneBit(BigByte(n - 1)) && TopMask(n) == 0x1000000 - BigByte(n - 1)
    ensures n < 24 ==> TopMask(n) & BigByte(n) == 0
  {
    hide Or, OneBit;
    if n == 1 {
      FirstMask();
    } else {
      TopMaskValue(n - 1);
      BigByteHalved(n - 1);
      HalveBit(BigByte(n - 2)); MaskStep(BigByte(n - 2));
    }
    if n < 24 {
      BigByteHalved(n);
      MaskStep(BigByte(n - 1));
    }
  }

  lemma {:induction false} FirstMask()
    ensures OneBit(BigByte(0)) && TopMask(1) == 0x1000000 - BigByte(0)
  {}

  lemma {:induction false} BigByteHalved(n: nat)
    requires 1 <= n < 24
    ensures BigByte(n) == BigByte(n - 1) >> 1 && BigByte(n - 1) >= 2
  {
    BigByteNonzero(n);
  }

  lemma {:induction false} PackedFlips(bits: seq<bool>, n: nat)
    requires |bits| == 24 && n <= 24
    ensures Covers(TopMask(n), Packed(bits, n))
    ensures Packed(Flip(bits), n) == Within(TopMask(n), Packed(bits, n))
  {
    if n > 0 {
      PackedFlips(bits, n - 1);
      if n > 1 { TopMaskValue(n - 1); }
      PackStep(Packed(bits, n - 1), TopMask(n - 1), BigByte(n - 1));
      hide BigByte, Or, Within, Covers;
    }
  }

  lemma {:induction false} PackStep(w: bv32, m: bv32, c: bv32)
    requires m & c == 0 && Covers(m, w)
    ensures Within(Or(m, c), Or(w, c)) == Within(m, w)
    ensures Within(Or(m, c), w) == Or(Within(m, w), c)
    ensures Covers(Or(m, c), Or(w, c)) && Covers(Or(m, c), w)
  {
    hide Within;
    WithinOrSet(w, m, c); WithinOrClear(w, m, c); CoversOr(w, m, c);
  }

  lemma {:induction false} TopMaskAll()
    ensures TopMask(24) == 0xffffff
  {
    TopMaskValue(24);
    assert BigByte(4) == 0x80000 && BigByte(8) == 0x8000;
    assert BigByte(12) == 0x800 && BigByte(16) == 0x80 && BigByte(20) == 8 && BigByte(23) == 1;
  }

  lemma {:induction false} CookWithin(l: bv32, r: bv32)
    ensures Cook0(Within(0xffffff, l), Within(0xffffff, r)) == Within(0x3f3f3f3f, Cook0(l, r))
    ensures Cook1(Within(0xffffff, l), Within(0xffffff, r)) == Within(0x3f3f3f3f, Cook1(l, r))
  {
    hide Cook0, Cook1;
    Cook0Within(l, r); Cook1Within(l, r);
  }

  /** Every cooked key word of the complemented key has its 24 key bits inverted. */
  lemma {:induction false} KeyPairsFlip(key: seq<bv8>, i: nat)
    requires |key| == 8 && i < 16
    ensures KeyPairs(NotBytes(key))[i] == FlipKey(KeyPairs(key)[i])
  {
    hide Registers, Packed, Cook0, Cook1, Within, TopMask, Pc2;
    RegistersFlip(key, i + 1);
    var bits := RoundBits(key, i);
    assert RoundBits(NotBytes(key), i) == Flip(bits);
    assert Flip(bits)[..24] == Flip(bits[..24]) && Flip(bits)[24..] == Flip(bits[24..]);
    PackedFlips(bits[..24], 24); PackedFlips(bits[24..], 24);
    TopMaskAll();
    CookWithin(Packed(bits[..24], 24), Packed(bits[24..], 24));
  }

  // ----- the rounds and the permutations commute with complement

  lemma {:induction false} BoxesUnchanged(sp: SP, x: bv32, k: bv32)
    ensures OddBoxes(sp, Xor(Neg(x), Within(0x3f3f3f3f, k))) == OddBoxes(sp, Xor(x, k))
    ensures EvenBoxes(sp, Xor(Neg(x), Within(0x3f3f3f3f, k))) == EvenBoxes(sp, Xor(x, k))
  {
    hide Xor, Neg, Within, Index0, Index1, Index2, Index3;
    Index0Neg(x, k); Index1Neg(x, k); Index2Neg(x, k); Index3Neg(x, k);
  }

  lemma {:induction false} FUnchanged(sp: SP, x: bv32, k: Pair)
    ensures F(sp, Neg(x), FlipKey(k)) == F(sp, x, k)
  {
    hide Or, Xor, Neg, Within, OddBoxes, EvenBoxes, Rot4;
    BoxesUnchanged(sp, x, k.r);
    Rot4Neg(x);
    BoxesUnchanged(sp, Rot4(x), k.l);
  }

  lemma {:induction false} FeistelNot(sp: SP, ks: seq<Pair>, ks': seq<Pair>, h: Pair)
    requires |ks| == |ks'| && forall i :: 0 <= i < |ks| ==> ks'[i] == FlipKey(ks[i])
    ensures Feistel(sp, ks', Not(h)) == Not(Feistel(sp, ks, h))
    decreases |ks|
  {
    hide F, Xor, Neg, FlipKey;
    if ks != [] {
      var n := |ks| - 1;
      FeistelNot(sp, ks[..n], ks'[..n], h);
      var g := Feistel(sp, ks[..n], h);
      FUnchanged(sp, g.r, ks[n]);
      XorNeg(g.l, F(sp, g.r, ks[n]));
    }
  }

  lemma {:induction false} Swap4Not(p: Pair)
    ensures Swap4(Not(p)) == Not(Swap4(p))
  {
    hide Xor, Neg, Work4, Shl4;
    Work4Neg(p.l, p.r);
    var w := Work4(p.l, p.r);
    XorNeg(p.l, Shl4(w)); XorNeg(p.r, w);
  }

  lemma {:induction false} Swap16Not(p: Pair)
    ensures Swap16(Not(p)) == Not(Swap16(p))
  {
    hide Xor, Neg, Work16, Shl16;
    Work16Neg(p.l, p.r);
    var w := Work16(p.l, p.r);
    XorNeg(p.l, Shl16(w)); XorNeg(p.r, w);
  }

  lemma {:induction false} Swap2Not(p: Pair)
    ensures Swap2(Not(p)) == Not(Swap2(p))
  {
    hide Xor, Neg, Work2, Shl2;
    Work2Neg(p.l, p.r);
    var w := Work2(p.l, p.r);
    XorNeg(p.l, Shl2(w)); XorNeg(p.r, w);
  }

  lemma {:induction false} Swap8Not(p: Pair)
    ensures Swap8(Not(p)) == Not(Swap8(p))
  {
    hide Xor, Neg, Work8, Shl8;
    Work8Neg(p.l, p.r);
    var w := Work8(p.l, p.r);
    XorNeg(p.l, Shl8(w)); XorNeg(p.r, w);
  }

  lemma {:induction false} Swap1Not(p: Pair)
    ensures Swap1(Not(p)) == Not(Swap1(p))
  {
    hide Xor, Neg, Work1;
    Work1Neg(p.l, p.r);
    var w := Work1(p.l, p.r);
    XorNeg(p.l, w); XorNeg(p.r, w);
  }

  lemma {:induction false} OpeningNot(p: Pair)
    ensures Opening(Not(p)) == Not(Opening(p))
  {
    hide Neg, Swap1, Swap2, Swap4, Swap8, Swap16, Rotl1, Rotr1;
    Swap4Not(p);
    Swap16Not(Swap4(p));
    var a := Swap(Swap16(Swap4(p)));
    Swap2Not(a);
    Swap8Not(Swap2(a));
    var b := Swap8(Swap2(a));
    Rotl1Neg(b.l);
    Swap1Not(Pair(b.r, Rotl1(b.l)));
    Rotl1Neg(Swap1(Pair(b.r, Rotl1(b.l))).l);
  }

  lemma {:induction false} ClosingNot(p: Pair)
    ensures Closing(Not(p)) == Not(Closing(p))
  {
    hide Neg, Swap1, Swap2, Swap4, Swap8, Swap16, Rotl1, Rotr1;
    Rotr1Neg(p.r);
    Swap1Not(Pair(p.l, Rotr1(p.r)));
    var s := Swap1(Pair(p.l, Rotr1(p.r)));
    Rotr1Neg(s.l);
    Swap8Not(Pair(Rotr1(s.l), s.r));
    var b := Swap8(Pair(Rotr1(s.l), s.r));
    Swap2Not(b);
    Swap16Not(Swap(Swap2(b)));
    Swap4Not(Swap16(Swap(Swap2(b))));
  }

  /** Complementing the key and the block complements the enciphered block. */
  lemma {:induction false} Complementation(sp: SP, key: seq<bv8>, block: Pair)
    requires |key| == 8
    ensures DesBlock(sp, KeyPairs(NotBytes(key)), Not(block)) == Not(DesBlock(sp, KeyPairs(key), block))
  {
    hide Neg, Opening, Closing, KeyPairs, FlipKey;
    forall i | 0 <= i < 16
      ensures KeyPairs(NotBytes(key))[i] == FlipKey(KeyPairs(key)[i])
    {
      KeyPairsFlip(key, i);
    }
    var h := Opening(block);
    OpeningNot(block);
    FeistelNot(sp, KeyPairs(key), KeyPairs(NotBytes(key)), h);
    ClosingNot(Feistel(sp, KeyPairs(key), h));
  }
}
