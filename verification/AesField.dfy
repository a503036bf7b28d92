/**
 The byte field of AES, its columns, and the lookup tables of aes.c.

 The S-box is a parameter: every table of aes.c is determined by a byte permutation and its
 inverse (aes.c:46-58), and every theorem below holds for any such pair.
 */
module AesField {

  /** A byte substitution together with its claimed inverse. */
  datatype SBox = SBox(s: bv8 -> bv8, si: bv8 -> bv8)

  ghost predicate Inverses(sb: SBox) {
    forall x: bv8 :: sb.si(sb.s(x)) == x && sb.s(sb.si(x)) == x
  }

  /** One column of the state, byte of row 0 first. */
  datatype Col = Col(r0: bv8, r1: bv8, r2: bv8, r3: bv8)

  /** Addition of field elements; proofs that only regroup sums hide its body. */
  function Add(a: bv8, b: bv8): bv8 { a ^ b }

  function Add3(a: bv8, b: bv8, c: bv8): bv8 { Add(Add(a, b), c) }

  function Add4(a: bv8, b: bv8, c: bv8, d: bv8): bv8 { Add(Add(Add(a, b), c), d) }

  /** Multiplication by x modulo x^8 + x^4 + x^3 + x + 1. */
  function Xtime(b: bv8): bv8 { (b << 1) ^ (if b & 0x80 == 0 then 0 else 0x1b) }

  function Mul2(b: bv8): bv8 { Xtime(b) }
  function Mul3(b: bv8): bv8 { Add(Xtime(b), b) }
  function Mul9(b: bv8): bv8 { Add(Xtime(Xtime(Xtime(b))), b) }
  function MulB(b: bv8): bv8 { Add3(Xtime(Xtime(Xtime(b))), Xtime(b), b) }
  function MulD(b: bv8): bv8 { Add3(Xtime(Xtime(Xtime(b))), Xtime(Xtime(b)), b) }
  function MulE(b: bv8): bv8 { Add3(Xtime(Xtime(Xtime(b))), Xtime(Xtime(b)), Xtime(b)) }

  function AddCol(x: Col, y: Col): Col {
    Col(Add(x.r0, y.r0), Add(x.r1, y.r1), Add(x.r2, y.r2), Add(x.r3, y.r3))
  }

  /** MixColumns on one column (section 5.1.3 of FIPS-197). */
  function Mix(c: Col): Col {
    Col(Add4(Mul2(c.r0), Mul3(c.r1), c.r2, c.r3),
        Add4(c.r0, Mul2(c.r1), Mul3(c.r2), c.r3),
        Add4(c.r0, c.r1, Mul2(c.r2), Mul3(c.r3)),
        Add4(Mul3(c.r0), c.r1, c.r2, Mul2(c.r3)))
  }

  /** InvMixColumns on one column (section 5.3.3 of FIPS-197). */
  function InvMix(c: Col): Col {
    Col(Add4(MulE(c.r0), MulB(c.r1), MulD(c.r2), Mul9(c.r3)),
        Add4(Mul9(c.r0), MulE(c.r1), MulB(c.r2), MulD(c.r3)),
        Add4(MulD(c.r0), Mul9(c.r1), MulE(c.r2), MulB(c.r3)),
        Add4(MulB(c.r0), MulD(c.r1), Mul9(c.r2), MulE(c.r3)))
  }

  // ----- regrouping of sums

  lemma {:induction false} AddAssoc(a: bv8, b: bv8, c: bv8)
    ensures Add(Add(a, b), c) == Add(a, Add(b, c))
  {}

  lemma {:induction false} AddComm(a: bv8, b: bv8)
    ensures Add(a, b) == Add(b, a)
  {}

  lemma {:induction false} Swap2(a: bv8, a': bv8, b: bv8, b': bv8)
    ensures Add(Add(a, a'), Add(b, b')) == Add(Add(a, b), Add(a', b'))
  {
    hide Add;
    AddAssoc(a, a', Add(b, b')); AddAssoc(a', b, b'); AddComm(a', b);
    AddAssoc(b, a', b'); AddAssoc(a, b, Add(a', b'));
  }

  lemma {:induction false} Swap3(a: bv8, a': bv8, b: bv8, b': bv8, c: bv8, c': bv8)
    ensures Add3(Add(a, a'), Add(b, b'), Add(c, c')) == Add(Add3(a, b, c), Add3(a', b', c'))
  {
    hide Add;
    Swap2(a, a', b, b'); Swap2(Add(a, b), Add(a', b'), c, c');
  }

  lemma {:induction false} Swap4(a: bv8, a': bv8, b: bv8, b': bv8, c: bv8, c': bv8, d: bv8, d': bv8)
    ensures Add4(Add(a, a'), Add(b, b'), Add(c, c'), Add(d, d')) == Add(Add4(a, b, c, d), Add4(a', b', c', d'))
  {
    hide Add;
    Swap3(a, a', b, b', c, c'); Swap2(Add3(a, b, c), Add3(a', b', c'), d, d');
  }

  lemma {:induction false} Transpose(a0: bv8, a1: bv8, a2: bv8, a3: bv8, b0: bv8, b1: bv8, b2: bv8, b3: bv8,
                  c0: bv8, c1: bv8, c2: bv8, c3: bv8, d0: bv8, d1: bv8, d2: bv8, d3: bv8)
    ensures Add4(Add4(a0, a1, a2, a3), Add4(b0, b1, b2, b3), Add4(c0, c1, c2, c3), Add4(d0, d1, d2, d3))
         == Add4(Add4(a0, b0, c0, d0), Add4(a1, b1, c1, d1), Add4(a2, b2, c2, d2), Add4(a3, b3, c3, d3))
  {
    hide Add;
    Swap4(a0, b0, a1, b1, a2, b2, a3, b3);
    Swap4(Add(a0, b0), c0, Add(a1, b1), c1, Add(a2, b2), c2, Add(a3, b3), c3);
    Swap4(Add(Add(a0, b0), c0), d0, Add(Add(a1, b1), c1), d1, Add(Add(a2, b2), c2), d2, Add(Add(a3, b3), c3), d3);
  }

  // ----- linearity and inverses of the column maps

  lemma {:induction false} XtimeAdd(a: bv8, b: bv8)
    ensures Xtime(Add(a, b)) == Add(Xtime(a), Xtime(b))
  {
    if a & 0x80 == 0 {
      if b & 0x80 == 0 { assert (a ^ b) & 0x80 == 0; } else { assert (a ^ b) & 0x80 != 0; }
    } else {
      if b & 0x80 == 0 { assert (a ^ b) & 0x80 != 0; } else { assert (a ^ b) & 0x80 == 0; }
    }
  }

  /** Multiplication by each matrix entry is additive. */
  lemma {:induction false} MulAdd(a: bv8, b: bv8)
    ensures Mul2(Add(a, b)) == Add(Mul2(a), Mul2(b)) && Mul3(Add(a, b)) == Add(Mul3(a), Mul3(b))
    ensures Mul9(Add(a, b)) == Add(Mul9(a), Mul9(b)) && MulB(Add(a, b)) == Add(MulB(a), MulB(b))
    ensures MulD(Add(a, b)) == Add(MulD(a), MulD(b)) && MulE(Add(a, b)) == Add(MulE(a), MulE(b))
  {
    hide Xtime, Add, Add3;
    var a1, b1 := Xtime(a), Xtime(b);
    var a2, b2 := Xtime(a1), Xtime(b1);
    var a3, b3 := Xtime(a2), Xtime(b2);
    XtimeAdd(a, b); XtimeAdd(a1, b1); XtimeAdd(a2, b2);
    Swap2(a1, b1, a, b);
    Swap2(a3, b3, a, b);
    Swap3(a3, b3, a1, b1, a, b);
    Swap3(a3, b3, a2, b2, a, b);
    Swap3(a3, b3, a2, b2, a1, b1);
  }

  lemma {:induction false} MulAdd4(a: bv8, b: bv8, c: bv8, d: bv8)
    ensures Mul2(Add4(a, b, c, d)) == Add4(Mul2(a), Mul2(b), Mul2(c), Mul2(d))
    ensures Mul3(Add4(a, b, c, d)) == Add4(Mul3(a), Mul3(b), Mul3(c), Mul3(d))
    ensures Mul9(Add4(a, b, c, d)) == Add4(Mul9(a), Mul9(b), Mul9(c), Mul9(d))
    ensures MulB(Add4(a, b, c, d)) == Add4(MulB(a), MulB(b), MulB(c), MulB(d))
    ensures MulD(Add4(a, b, c, d)) == Add4(MulD(a), MulD(b), MulD(c), MulD(d))
    ensures MulE(Add4(a, b, c, d)) == Add4(MulE(a), MulE(b), MulE(c), MulE(d))
  {
    hide Add, Mul2, Mul3, Mul9, MulB, MulD, MulE;
    MulAdd(a, b); MulAdd(Add(a, b), c); MulAdd(Add(Add(a, b), c), d);
  }

  // Sums of x, 2x, 4x, 8x and 16x, named by which of the five occur in them.

  datatype Powers = Powers(x0: bv8, x1: bv8, x2: bv8, x3: bv8, x4: bv8)
  datatype Coef = One | Nil
  datatype Bits = Bits(b4: Coef, b3: Coef, b2: Coef, b1: Coef, b0: Coef)

  function PowersOf(x: bv8): Powers {
    Powers(x, Xtime(x), Xtime(Xtime(x)), Xtime(Xtime(Xtime(x))), Xtime(Xtime(Xtime(Xtime(x)))))
  }

  function Pick(b: Coef, x: bv8): bv8 { if b == One then x else 0 }

  function Flip(b: Coef, c: Coef): Coef { if b == c then Nil else One }

  function HighComb(p: Powers, m: Bits): bv8 {
    Add4(Pick(m.b4, p.x4), Pick(m.b3, p.x3), Pick(m.b2, p.x2), Pick(m.b1, p.x1))
  }

  function Comb(p: Powers, m: Bits): bv8 { Add(HighComb(p, m), Pick(m.b0, p.x0)) }

  function XorBits(m: Bits, n: Bits): Bits {
    Bits(Flip(m.b4, n.b4), Flip(m.b3, n.b3), Flip(m.b2, n.b2), Flip(m.b1, n.b1), Flip(m.b0, n.b0))
  }

  lemma {:induction false} PickAdd(b: Coef, c: Coef, x: bv8)
    ensures Add(Pick(b, x), Pick(c, x)) == Pick(Flip(b, c), x)
  {}

  lemma {:induction false} HighCombAdd(p: Powers, m: Bits, n: Bits)
    ensures Add(HighComb(p, m), HighComb(p, n)) == HighComb(p, XorBits(m, n))
  {
    hide Add, Add4, Pick, Flip;
    Swap4(Pick(m.b4, p.x4), Pick(n.b4, p.x4), Pick(m.b3, p.x3), Pick(n.b3, p.x3),
          Pick(m.b2, p.x2), Pick(n.b2, p.x2), Pick(m.b1, p.x1), Pick(n.b1, p.x1));
    PickAdd(m.b4, n.b4, p.x4); PickAdd(m.b3, n.b3, p.x3); PickAdd(m.b2, n.b2, p.x2); PickAdd(m.b1, n.b1, p.x1);
  }

  lemma {:induction false} CombAdd(p: Powers, m: Bits, n: Bits)
    ensures Add(Comb(p, m), Comb(p, n)) == Comb(p, XorBits(m, n))
  {
    hide Add, HighComb, Pick, Flip;
    Swap2(HighComb(p, m), Pick(m.b0, p.x0), HighComb(p, n), Pick(n.b0, p.x0));
    HighCombAdd(p, m, n);
    PickAdd(m.b0, n.b0, p.x0);
  }

  lemma {:induction false} AddZeros()
    ensures forall x: bv8 :: Add(x, 0) == x && Add(0, x) == x
  {}

  /** Each matrix entry times x, and times 2x, as a sum of powers. */
  lemma {:induction false} MulComb(x: bv8)
    ensures var p := PowersOf(x);
            MulE(x) == Comb(p, Bits(Nil, One, One, One, Nil)) &&
              MulE(Mul2(x)) == Comb(p, Bits(One, One, One, Nil, Nil)) &&
            MulB(x) == Comb(p, Bits(Nil, One, Nil, One, One)) &&
              MulB(Mul2(x)) == Comb(p, Bits(One, Nil, One, One, Nil)) &&
            MulD(x) == Comb(p, Bits(Nil, One, One, Nil, One)) &&
              MulD(Mul2(x)) == Comb(p, Bits(One, One, Nil, One, Nil)) &&
            Mul9(x) == Comb(p, Bits(Nil, One, Nil, Nil, One)) &&
              Mul9(Mul2(x)) == Comb(p, Bits(One, Nil, Nil, One, Nil)) &&
            x == Comb(p, Bits(Nil, Nil, Nil, Nil, One)) && 0 == Comb(p, Bits(Nil, Nil, Nil, Nil, Nil))
  {
    hide Add, Xtime;
    AddZeros();
  }

  lemma {:induction false} Comb4(p: Powers, m: Bits, n: Bits, k: Bits, l: Bits)
    ensures Add4(Comb(p, m), Comb(p, n), Comb(p, k), Comb(p, l)) == Comb(p, XorBits(XorBits(XorBits(m, n), k), l))
  {
    hide Add, Comb;
    CombAdd(p, m, n); CombAdd(p, XorBits(m, n), k); CombAdd(p, XorBits(XorBits(m, n), k), l);
  }

  /** The product of the two MixColumns matrices is the identity, entry by entry. */
  lemma {:induction false} MatrixProduct(x: bv8)
    ensures Add4(MulE(Mul2(x)), MulB(x), MulD(x), Mul9(Mul3(x))) == x
    ensures Add4(MulE(Mul3(x)), MulB(Mul2(x)), MulD(x), Mul9(x)) == 0
    ensures Add4(MulE(x), MulB(Mul3(x)), MulD(Mul2(x)), Mul9(x)) == 0
    ensures Add4(MulE(x), MulB(x), MulD(Mul3(x)), Mul9(Mul2(x))) == 0
  {
    hide Add, Add4, Xtime, MulE, MulB, MulD, Mul9, Comb, PowersOf;
    var p := PowersOf(x);
    MulComb(x);
    MulAdd(Xtime(x), x);
    var (e, e2) := (Bits(Nil, One, One, One, Nil), Bits(One, One, One, Nil, Nil));
    var (b, b2) := (Bits(Nil, One, Nil, One, One), Bits(One, Nil, One, One, Nil));
    var (d, d2) := (Bits(Nil, One, One, Nil, One), Bits(One, One, Nil, One, Nil));
    var (n, n2) := (Bits(Nil, One, Nil, Nil, One), Bits(One, Nil, Nil, One, Nil));
    CombAdd(p, e2, e); CombAdd(p, b2, b); CombAdd(p, d2, d); CombAdd(p, n2, n);
    Comb4(p, e2, b, d, XorBits(n2, n));
    Comb4(p, XorBits(e2, e), b2, d, n);
    Comb4(p, e, XorBits(b2, b), d2, n);
    Comb4(p, e, b, XorBits(d2, d), n2);
  }

  lemma {:induction false} InvMixAdd(x: Col, y: Col)
    ensures InvMix(AddCol(x, y)) == AddCol(InvMix(x), InvMix(y))
  {
    hide Add, Add4, Mul9, MulB, MulD, MulE;
    MulAdd(x.r0, y.r0); MulAdd(x.r1, y.r1); MulAdd(x.r2, y.r2); MulAdd(x.r3, y.r3);
    Swap4(MulE(x.r0), MulE(y.r0), MulB(x.r1), MulB(y.r1), MulD(x.r2), MulD(y.r2), Mul9(x.r3), Mul9(y.r3));
    Swap4(Mul9(x.r0), Mul9(y.r0), MulE(x.r1), MulE(y.r1), MulB(x.r2), MulB(y.r2), MulD(x.r3), MulD(y.r3));
    Swap4(MulD(x.r0), MulD(y.r0), Mul9(x.r1), Mul9(y.r1), MulE(x.r2), MulE(y.r2), MulB(x.r3), MulB(y.r3));
    Swap4(MulB(x.r0), MulB(y.r0), MulD(x.r1), MulD(y.r1), Mul9(x.r2), Mul9(y.r2), MulE(x.r3), MulE(y.r3));
  }

  lemma {:induction false} InvMixMixRow(a: bv8, b: bv8, c: bv8, d: bv8)
    ensures InvMix(Mix(Col(a, b, c, d))).r0 == a
  {
    hide Add, Add4, Mul2, Mul3, Mul9, MulB, MulD, MulE;
    MulAdd4(Mul2(a), Mul3(b), c, d);
    MulAdd4(a, Mul2(b), Mul3(c), d);
    MulAdd4(a, b, Mul2(c), Mul3(d));
    MulAdd4(Mul3(a), b, c, Mul2(d));
    Transpose(MulE(Mul2(a)), MulE(Mul3(b)), MulE(c), MulE(d), MulB(a), MulB(Mul2(b)), MulB(Mul3(c)), MulB(d),
              MulD(a), MulD(b), MulD(Mul2(c)), MulD(Mul3(d)), Mul9(Mul3(a)), Mul9(b), Mul9(c), Mul9(Mul2(d)));
    MatrixProduct(a); MatrixProduct(b); MatrixProduct(c); MatrixProduct(d);
    assert Add4(a, 0, 0, 0) == a by { AddZero(a); }
  }

  lemma {:induction false} AddZero(a: bv8)
    ensures Add4(a, 0, 0, 0) == a
  {}

  lemma {:induction false} Rotate4(a: bv8, b: bv8, c: bv8, d: bv8)
    ensures Add4(a, b, c, d) == Add4(b, c, d, a)
  {
    hide Add;
    AddAssoc(a, b, c); AddAssoc(a, Add(b, c), d); AddComm(a, Add(Add(b, c), d));
  }

  function RotCol(c: Col): Col { Col(c.r1, c.r2, c.r3, c.r0) }

  /** Both column maps are circulant. */
  lemma {:induction false} Circulant(c: Col)
    ensures Mix(RotCol(c)) == RotCol(Mix(c)) && InvMix(RotCol(c)) == RotCol(InvMix(c))
  {
    hide Add, Add4, Mul2, Mul3, Mul9, MulB, MulD, MulE;
    Rotate4(Mul2(c.r0), Mul3(c.r1), c.r2, c.r3);
    Rotate4(c.r0, Mul2(c.r1), Mul3(c.r2), c.r3);
    Rotate4(c.r0, c.r1, Mul2(c.r2), Mul3(c.r3));
    Rotate4(Mul3(c.r0), c.r1, c.r2, Mul2(c.r3));
    Rotate4(MulE(c.r0), MulB(c.r1), MulD(c.r2), Mul9(c.r3));
    Rotate4(Mul9(c.r0), MulE(c.r1), MulB(c.r2), MulD(c.r3));
    Rotate4(MulD(c.r0), Mul9(c.r1), MulE(c.r2), MulB(c.r3));
    Rotate4(MulB(c.r0), MulD(c.r1), Mul9(c.r2), MulE(c.r3));
  }

  lemma {:induction false} InvMixMix(c: Col)
    ensures InvMix(Mix(c)) == c
  {
    hide Mix, InvMix;
    var c1 := RotCol(c);
    var c2 := RotCol(c1);
    var c3 := RotCol(c2);
    Circulant(c); Circulant(c1); Circulant(c2);
    Circulant(Mix(c)); Circulant(Mix(c1)); Circulant(Mix(c2));
    InvMixMixRow(c.r0, c.r1, c.r2, c.r3);
    InvMixMixRow(c1.r0, c1.r1, c1.r2, c1.r3);
    InvMixMixRow(c2.r0, c2.r1, c2.r2, c2.r3);
    InvMixMixRow(c3.r0, c3.r1, c3.r2, c3.r3);
  }

  // ----- words, and the tables of aes.c

  function Byte3(w: bv32): bv8 { (w >> 24) as bv8 }
  function Byte2(w: bv32): bv8 { ((w >> 16) & 0xff) as bv8 }
  function Byte1(w: bv32): bv8 { ((w >> 8) & 0xff) as bv8 }
  function Byte0(w: bv32): bv8 { (w & 0xff) as bv8 }

  function Unpack(w: bv32): Col { Col(Byte3(w), Byte2(w), Byte1(w), Byte0(w)) }

  function Pack(c: Col): bv32 {
    ((c.r0 as bv32) << 24) ^ ((c.r1 as bv32) << 16) ^ ((c.r2 as bv32) << 8) ^ (c.r3 as bv32)
  }

  lemma {:induction false} UnpackPack(c: Col)
    ensures Unpack(Pack(c)) == c
  {}

  lemma {:induction false} PackUnpack(w: bv32)
    ensures Pack(Unpack(w)) == w
  {}

  lemma {:induction false} UnpackXor(v: bv32, w: bv32)
    ensures Unpack(v ^ w) == AddCol(Unpack(v), Unpack(w))
  {}

  function Te0(sb: SBox, x: bv8): bv32 { var y := sb.s(x); Pack(Col(Mul2(y), y, y, Mul3(y))) }
  function Te1(sb: SBox, x: bv8): bv32 { var y := sb.s(x); Pack(Col(Mul3(y), Mul2(y), y, y)) }
  function Te2(sb: SBox, x: bv8): bv32 { var y := sb.s(x); Pack(Col(y, Mul3(y), Mul2(y), y)) }
  function Te3(sb: SBox, x: bv8): bv32 { var y := sb.s(x); Pack(Col(y, y, Mul3(y), Mul2(y))) }
  function Te4(sb: SBox, x: bv8): bv32 { var y := sb.s(x); Pack(Col(y, y, y, y)) }
  function Td0(sb: SBox, x: bv8): bv32 { var y := sb.si(x); Pack(Col(MulE(y), Mul9(y), MulD(y), MulB(y))) }
  function Td1(sb: SBox, x: bv8): bv32 { var y := sb.si(x); Pack(Col(MulB(y), MulE(y), Mul9(y), MulD(y))) }
  function Td2(sb: SBox, x: bv8): bv32 { var y := sb.si(x); Pack(Col(MulD(y), MulB(y), MulE(y), Mul9(y))) }
  function Td3(sb: SBox, x: bv8): bv32 { var y := sb.si(x); Pack(Col(Mul9(y), MulD(y), MulB(y), MulE(y))) }
  function Td4(sb: SBox, x: bv8): bv32 { var y := sb.si(x); Pack(Col(y, y, y, y)) }

  lemma {:induction false} XorChain(u: bv32, v: bv32, w: bv32, x: bv32, k: bv32, p: bv32, q: bv32, r: bv32)
    requires p == u ^ v && q == p ^ w && r == q ^ x
    ensures u ^ v ^ w ^ x ^ k == r ^ k
  {}

  lemma {:induction false} UnpackXor5(u: bv32, v: bv32, w: bv32, x: bv32, k: bv32)
    ensures Unpack(u ^ v ^ w ^ x ^ k)
         == AddCol(AddCol(AddCol(AddCol(Unpack(u), Unpack(v)), Unpack(w)), Unpack(x)), Unpack(k))
  {
    hide Unpack, AddCol;
    var p := u ^ v;
    var q := p ^ w;
    var r := q ^ x;
    XorChain(u, v, w, x, k, p, q, r);
    UnpackXor(u, v); UnpackXor(p, w); UnpackXor(q, x); UnpackXor(r, k);
  }

  /** Four table lookups are substitution followed by MixColumns. */
  lemma {:induction false} TableColumn(sb: SBox, a: bv8, b: bv8, c: bv8, d: bv8, k: bv32)
    ensures Unpack(Te0(sb, a) ^ Te1(sb, b) ^ Te2(sb, c) ^ Te3(sb, d) ^ k)
         == AddCol(Mix(Col(sb.s(a), sb.s(b), sb.s(c), sb.s(d))), Unpack(k))
  {
    hide Unpack, Add, Mul2, Mul3, Pack;
    UnpackXor5(Te0(sb, a), Te1(sb, b), Te2(sb, c), Te3(sb, d), k);
    var (a', b', c', d') := (sb.s(a), sb.s(b), sb.s(c), sb.s(d));
    UnpackPack(Col(Mul2(a'), a', a', Mul3(a')));
    UnpackPack(Col(Mul3(b'), Mul2(b'), b', b'));
    UnpackPack(Col(c', Mul3(c'), Mul2(c'), c'));
    UnpackPack(Col(d', d', Mul3(d'), Mul2(d')));
  }

  /** The decryption tables are inverse substitution followed by InvMixColumns. */
  lemma {:induction false} InvTableColumn(sb: SBox, a: bv8, b: bv8, c: bv8, d: bv8, k: bv32)
    ensures Unpack(Td0(sb, a) ^ Td1(sb, b) ^ Td2(sb, c) ^ Td3(sb, d) ^ k)
         == AddCol(InvMix(Col(sb.si(a), sb.si(b), sb.si(c), sb.si(d))), Unpack(k))
  {
    hide Unpack, Add, Mul9, MulB, MulD, MulE, Pack;
    UnpackXor5(Td0(sb, a), Td1(sb, b), Td2(sb, c), Td3(sb, d), k);
    var (a', b', c', d') := (sb.si(a), sb.si(b), sb.si(c), sb.si(d));
    UnpackPack(Col(MulE(a'), Mul9(a'), MulD(a'), MulB(a')));
    UnpackPack(Col(MulB(b'), MulE(b'), Mul9(b'), MulD(b')));
    UnpackPack(Col(MulD(c'), MulB(c'), MulE(c'), Mul9(c')));
    UnpackPack(Col(Mul9(d'), MulD(d'), MulB(d'), MulE(d')));
  }

  /** The masked lookups of the last round select one substituted byte per row. */
  lemma {:induction false} LastColumn(y0: bv8, y1: bv8, y2: bv8, y3: bv8, k: bv32)
    ensures Unpack((Pack(Col(y0, y0, y0, y0)) & 0xff000000) ^ (Pack(Col(y1, y1, y1, y1)) & 0x00ff0000) ^
                   (Pack(Col(y2, y2, y2, y2)) & 0x0000ff00) ^ (Pack(Col(y3, y3, y3, y3)) & 0x000000ff) ^ k)
         == AddCol(Col(y0, y1, y2, y3), Unpack(k))
  {}
}
