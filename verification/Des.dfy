/**
 The DES block function of d3des.c: opening and closing bit permutations by delta swaps,
 sixteen Feistel half-rounds, and the key register KnL filled by deskey.

 The substitution boxes are a parameter, so the inverse law and the complementation law hold
 for any contents of the SP tables.
 */
module Des {
  import opened Words
  import opened DesBits

  datatype SP = SP(s1: bv32 -> bv32, s2: bv32 -> bv32, s3: bv32 -> bv32, s4: bv32 -> bv32,
                   s5: bv32 -> bv32, s6: bv32 -> bv32, s7: bv32 -> bv32, s8: bv32 -> bv32)

  datatype Pair = Pair(l: bv32, r: bv32)

  function Swap(p: Pair): Pair { Pair(p.r, p.l) }

  // ----- the permutations around the rounds

  function Swap4(p: Pair): Pair { var w := Work4(p.l, p.r); Pair(Xor(p.l, Shl4(w)), Xor(p.r, w)) }
  function Swap16(p: Pair): Pair { var w := Work16(p.l, p.r); Pair(Xor(p.l, Shl16(w)), Xor(p.r, w)) }
  function Swap2(p: Pair): Pair { var w := Work2(p.l, p.r); Pair(Xor(p.l, Shl2(w)), Xor(p.r, w)) }
  function Swap8(p: Pair): Pair { var w := Work8(p.l, p.r); Pair(Xor(p.l, Shl8(w)), Xor(p.r, w)) }
  function Swap1(p: Pair): Pair { var w := Work1(p.l, p.r); Pair(Xor(p.l, w), Xor(p.r, w)) }

  /** Lines 327-345 of d3des.c. */
  function Opening(block: Pair): Pair {
    var p := Swap16(Swap4(block));
    var q := Swap8(Swap2(Swap(p)));        // leftt and right change roles
    var s := Swap1(Pair(q.r, Rotl1(q.l)));
    Pair(Rotl1(s.l), s.r)
  }

  /** Lines 374-392 of d3des.c: the right half is stored first. */
  function Closing(h: Pair): Pair {
    var s := Swap1(Pair(h.l, Rotr1(h.r)));
    var p := Swap2(Swap8(Pair(Rotr1(s.l), s.r)));
    Swap4(Swap16(Swap(p)))                 // leftt and right change roles
  }

  lemma {:induction false} Swap4Undo(p: Pair)
    ensures Swap4(Swap4(p)) == p
  {
    hide Xor, Work4, Shl4;
    var w := Work4(p.l, p.r);
    Work4Same(p.l, p.r);
    XorTwice(p.l, Shl4(w)); XorTwice(p.r, w);
  }

  lemma {:induction false} Swap16Undo(p: Pair)
    ensures Swap16(Swap16(p)) == p
  {
    hide Xor, Work16, Shl16;
    var w := Work16(p.l, p.r);
    Work16Same(p.l, p.r);
    XorTwice(p.l, Shl16(w)); XorTwice(p.r, w);
  }

  lemma {:induction false} Swap2Undo(p: Pair)
    ensures Swap2(Swap2(p)) == p
  {
    hide Xor, Work2, Shl2;
    var w := Work2(p.l, p.r);
    Work2Same(p.l, p.r);
    XorTwice(p.l, Shl2(w)); XorTwice(p.r, w);
  }

  lemma {:induction false} Swap8Undo(p: Pair)
    ensures Swap8(Swap8(p)) == p
  {
    hide Xor, Work8, Shl8;
    var w := Work8(p.l, p.r);
    Work8Same(p.l, p.r);
    XorTwice(p.l, Shl8(w)); XorTwice(p.r, w);
  }

  lemma {:induction false} Swap1Undo(p: Pair)
    ensures Swap1(Swap1(p)) == p
  {
    hide Xor, Work1;
    var w := Work1(p.l, p.r);
    Work1Same(p.l, p.r);
    XorTwice(p.l, w); XorTwice(p.r, w);
  }

  lemma {:induction false} Swap1Symmetric(p: Pair)
    ensures Swap1(Swap(p)) == Swap(Swap1(p))
  {
    hide Xor, Work1;
    Work1Symmetric(p.l, p.r);
  }

  /** The closing swaps undo the opening ones with the halves exchanged, and conversely. */
  lemma {:induction false} ClosingInvertsOpening(p: Pair)
    ensures Closing(Swap(Opening(p))) == p
    ensures Opening(Closing(p)) == Swap(p)
  {
    hide Swap1, Swap2, Swap4, Swap8, Swap16, Rotl1, Rotr1;
    var a := Swap16(Swap4(p));
    var b := Swap8(Swap2(Swap(a)));
    var c := Swap1(Pair(b.r, Rotl1(b.l)));
    RotUndo(c.l); RotUndo(b.l);
    Swap1Symmetric(c); Swap1Undo(Pair(b.r, Rotl1(b.l)));
    Swap8Undo(Swap2(Swap(a))); Swap2Undo(Swap(a)); Swap16Undo(Swap4(p)); Swap4Undo(p);
    var d := Swap1(Pair(p.l, Rotr1(p.r)));
    var e := Swap2(Swap8(Pair(Rotr1(d.l), d.r)));
    Swap4Undo(Swap16(Swap(e))); Swap16Undo(Swap(e)); Swap2Undo(Swap8(Pair(Rotr1(d.l), d.r)));
    Swap8Undo(Pair(Rotr1(d.l), d.r)); RotUndo(d.l); RotUndo(p.r);
    Swap1Symmetric(d); Swap1Undo(Pair(p.l, Rotr1(p.r)));
  }

  // ----- the rounds

  function OddBoxes(sp: SP, w: bv32): bv32 {
    sp.s7(Index0(w)) | sp.s5(Index1(w)) | sp.s3(Index2(w)) | sp.s1(Index3(w))
  }

  function EvenBoxes(sp: SP, w: bv32): bv32 {
    sp.s8(Index0(w)) | sp.s6(Index1(w)) | sp.s4(Index2(w)) | sp.s2(Index3(w))
  }

  /** The round function of lines 348-358 (and 360-370), for one pair of cooked key words. */
  function F(sp: SP, x: bv32, k: Pair): bv32 {
    Or(OddBoxes(sp, Xor(Rot4(x), k.l)), EvenBoxes(sp, Xor(x, k.r)))
  }

  /** One half-round, after which the halves exchange roles. */
  function HalfRound(sp: SP, k: Pair, h: Pair): Pair { Pair(h.r, Xor(h.l, F(sp, h.r, k))) }

  /** Half-rounds in the order of the keys. */
  function Feistel(sp: SP, ks: seq<Pair>, h: Pair): Pair
    decreases |ks|
  {
    if ks == [] then h else HalfRound(sp, ks[|ks| - 1], Feistel(sp, ks[..|ks| - 1], h))
  }

  function Reverse(ks: seq<Pair>): (r: seq<Pair>)
    ensures |r| == |ks| && forall i :: 0 <= i < |ks| ==> r[i] == ks[|ks| - 1 - i]
  {
    seq(|ks|, i requires 0 <= i < |ks| => ks[|ks| - 1 - i])
  }

  lemma {:induction false} FeistelFront(sp: SP, k: Pair, ks: seq<Pair>, h: Pair)
    ensures Feistel(sp, [k] + ks, h) == Feistel(sp, ks, HalfRound(sp, k, h))
    decreases |ks|
  {
    hide HalfRound;
    if ks == [] {
      assert [k] + ks == [k];
      assert Feistel(sp, [k], h) == HalfRound(sp, k, Feistel(sp, [], h));
    } else {
      var n := |ks| - 1;
      assert ([k] + ks)[..n + 1] == [k] + ks[..n] && ([k] + ks)[n + 1] == ks[n];
      FeistelFront(sp, k, ks[..n], h);
    }
  }

  /** Running the keys backwards on exchanged halves cancels every half-round, whatever F is. */
  lemma {:induction false} FeistelCancels(sp: SP, ks: seq<Pair>, h: Pair)
    ensures Feistel(sp, Reverse(ks), Swap(Feistel(sp, ks, h))) == Swap(h)
    decreases |ks|
  {
    hide F, Xor;
    if ks != [] {
      var n := |ks| - 1;
      var g := Feistel(sp, ks[..n], h);
      FeistelCancels(sp, ks[..n], h);
      assert Reverse(ks) == [ks[n]] + Reverse(ks[..n]);
      FeistelFront(sp, ks[n], Reverse(ks[..n]), Swap(Feistel(sp, ks, h)));
      XorTwice(g.l, F(sp, g.r, ks[n]));
    } else {
      assert Reverse(ks) == [];
    }
  }

  /** desfunc on two words. */
  function DesBlock(sp: SP, ks: seq<Pair>, block: Pair): Pair {
    Closing(Feistel(sp, ks, Opening(block)))
  }

  /** For every key list, SP tables and block: the reversed keys undo the block function. */
  lemma {:induction false} DesInverse(sp: SP, ks: seq<Pair>, block: Pair)
    ensures DesBlock(sp, Reverse(ks), DesBlock(sp, ks, block)) == block
  {
    hide Opening, Closing;
    var h := Opening(block);
    ClosingInvertsOpening(Feistel(sp, ks, h));
    FeistelCancels(sp, ks, h);
    ClosingInvertsOpening(block);
  }
}
