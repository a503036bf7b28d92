/**
 The key register of d3des.c: deskey, cookey and usekey against the key schedule of FIPS 46-3,
 and des itself on bytes, with the two laws of DES.
 */
module DesKeys {
  import opened Words
  import opened DesBits
  import opened Des

  /** A key bit position; bit 7 of each key byte is never selected. */
  type KeyPos = n: nat | n < 64 && n % 8 != 7
  type RegisterPos = n: nat | n < 56

  const PC1: seq<KeyPos> := [56, 48, 40, 32, 24, 16, 8, 0, 57, 49, 41, 33, 25, 17,
                             9, 1, 58, 50, 42, 34, 26, 18, 10, 2, 59, 51, 43, 35,
                             62, 54, 46, 38, 30, 22, 14, 6, 61, 53, 45, 37, 29, 21,
                             13, 5, 60, 52, 44, 36, 28, 20, 12, 4, 27, 19, 11, 3]
  const PC2: seq<RegisterPos> := [13, 16, 10, 23, 0, 4, 2, 27, 14, 5, 20, 9,
                                  22, 18, 11, 3, 25, 7, 15, 6, 26, 19, 12, 1,
                                  40, 51, 30, 36, 46, 54, 29, 39, 50, 44, 32, 47,
                                  43, 48, 38, 55, 33, 52, 45, 41, 49, 35, 28, 31]
  const TotRot: seq<nat> := [1, 2, 4, 6, 8, 10, 12, 14, 15, 17, 19, 21, 23, 25, 27, 28]
  const ByteBit: seq<bv8> := [1, 2, 4, 8, 16, 32, 64, 128]

  // ----- the schedule as FIPS 46-3 describes it

  /** The left shifts of the sixteen rounds. */
  const Shifts: seq<nat> := [1, 1, 2, 2, 2, 2, 2, 2, 1, 2, 2, 2, 2, 2, 2, 1]

  function Pc1(j: nat): KeyPos
    requires j < 56
  {
    PC1[j]
  }

  function Pc2(j: nat): RegisterPos
    requires j < 48
  {
    PC2[j]
  }

  function Totrot(i: nat): nat
    requires i < 16
  {
    TotRot[i]
  }

  function Shift(i: nat): nat
    requires i < 16
  {
    Shifts[i]
  }

  /** bigbyte[j]: bit 23 - j. */
  function BigByte(j: nat): bv32
    requires j < 24
  {
    if j == 0 then 0x800000 else BigByte(j - 1) >> 1
  }

  /** totrot holds the running sums of the shifts. */
  lemma {:induction false} TotrotSums(i: nat)
    requires i < 16
    ensures Totrot(i) <= 28 && Shift(i) <= 2 && Totrot(i) == Shift(i) + if i == 0 then 0 else Totrot(i - 1)
  {}

  predicate KeyBit(key: seq<bv8>, l: nat)
    requires |key| == 8 && l < 64
  {
    key[l / 8] & ByteBit[l % 8] != 0
  }

  /** The 56 selected key bits: registers C and D before the first round. */
  function Selected(key: seq<bv8>): (cd: seq<bool>)
    requires |key| == 8
    ensures |cd| == 56
  {
    seq(56, j requires 0 <= j < 56 => KeyBit(key, Pc1(j)))
  }

  function Rotl(s: seq<bool>, n: nat): (r: seq<bool>)
    requires n <= |s|
    ensures |r| == |s|
  {
    s[n..] + s[..n]
  }

  function RotBoth(cd: seq<bool>, n: nat): (r: seq<bool>)
    requires |cd| == 56 && n <= 28
    ensures |r| == 56
  {
    Rotl(cd[..28], n) + Rotl(cd[28..], n)
  }

  /** Registers C and D after i rounds, each round shifting by its own amount. */
  function Registers(key: seq<bv8>, i: nat): (cd: seq<bool>)
    requires |key| == 8 && i <= 16
    ensures |cd| == 56
  {
    if i == 0 then Selected(key) else (TotrotSums(i - 1); RotBoth(Registers(key, i - 1), Shift(i - 1)))
  }

  /** The 48 key bits of round i, counted from 0. */
  function RoundBits(key: seq<bv8>, i: nat): (bits: seq<bool>)
    requires |key| == 8 && i < 16
    ensures |bits| == 48
  {
    seq(48, j requires 0 <= j < 48 => Registers(key, i + 1)[Pc2(j)])
  }

  /** n bits packed from bit 23 downwards. */
  function Packed(bits: seq<bool>, n: nat): bv32
    requires n <= |bits| && n <= 24
  {
    if n == 0 then 0
    else if bits[n - 1] then Or(Packed(bits, n - 1), BigByte(n - 1))
    else Packed(bits, n - 1)
  }

  function RawPair(key: seq<bv8>, i: nat): Pair
    requires |key| == 8 && i < 16
  {
    Pair(Packed(RoundBits(key, i)[..24], 24), Packed(RoundBits(key, i)[24..], 24))
  }

  function Cook(raw: Pair): Pair { Pair(Cook0(raw.l, raw.r), Cook1(raw.l, raw.r)) }

  function KeyPairs(key: seq<bv8>): (ks: seq<Pair>)
    requires |key| == 8
    ensures |ks| == 16
  {
    seq(16, i requires 0 <= i < 16 => Cook(RawPair(key, i)))
  }

  // ----- the single rotation by totrot[i] is the accumulated shifts

  lemma {:induction false} RotlTwice(s: seq<bool>, m: nat, n: nat)
    requires m + n <= |s|
    ensures Rotl(Rotl(s, m), n) == Rotl(s, m + n)
  {
    assert Rotl(s, m)[n..] == s[m + n..] + s[..m] && Rotl(s, m)[..n] == s[m..m + n];
    assert s[..m] + s[m..m + n] == s[..m + n];
  }

  lemma {:induction false} RotBothTwice(cd: seq<bool>, m: nat, n: nat)
    requires |cd| == 56 && m + n <= 28
    ensures RotBoth(RotBoth(cd, m), n) == RotBoth(cd, m + n)
  {
    assert RotBoth(cd, m)[..28] == Rotl(cd[..28], m) && RotBoth(cd, m)[28..] == Rotl(cd[28..], m);
    hide Rotl;
    RotlTwice(cd[..28], m, n);
    RotlTwice(cd[28..], m, n);
  }

  lemma {:induction false} TotalRotation(key: seq<bv8>, i: nat)
    requires |key| == 8 && i < 16
    ensures Totrot(i) <= 28 && Registers(key, i + 1) == RotBoth(Selected(key), Totrot(i))
  {
    hide Selected, RotBoth, Totrot, Shift;
    TotrotSums(i);
    if i > 0 {
      TotalRotation(key, i - 1);
      RotBothTwice(Selected(key), Totrot(i - 1), Shift(i));
    }
  }

  // ----- deskey

  datatype Mode = EN0 | DE1

  /** Which pair of the raw schedule round i fills. */
  function Place(edf: Mode, i: nat): (p: nat)
    requires i < 16
    ensures p < 16
  {
    if edf == DE1 then 15 - i else i
  }

  /** The two rotation loops of deskey. */
  method Rotated(pc1m: seq<bool>, rot: nat) returns (pcr: seq<bool>)
    requires |pc1m| == 56 && rot <= 28
    ensures pcr == RotBoth(pc1m, rot)
  {
    var a := new bool[56];
    for j := 0 to 28
      invariant forall t :: 0 <= t < j ==> a[t] == pc1m[if t + rot < 28 then t + rot else t + rot - 28]
    {
      var l := j + rot;
      a[j] := if l < 28 then pc1m[l] else pc1m[l - 28];
    }
    for j := 28 to 56
      invariant forall t :: 0 <= t < 28 ==> a[t] == pc1m[if t + rot < 28 then t + rot else t + rot - 28]
      invariant forall t :: 28 <= t < j ==> a[t] == pc1m[if t + rot < 56 then t + rot else t + rot - 28]
    {
      var l := j + rot;
      a[j] := if l < 56 then pc1m[l] else pc1m[l - 28];
    }
    pcr := a[..];
  }

  /** The packing loop of deskey for one round. */
  method PackRound(pcr: seq<bool>, ghost key: seq<bv8>, ghost i: nat) returns (m: bv32, n: bv32)
    requires |key| == 8 && i < 16 && pcr == Registers(key, i + 1)
    ensures Pair(m, n) == RawPair(key, i)
  {
    hide Registers, Pc2, Or, BigByte;
    ghost var bits := RoundBits(key, i);
    m, n := 0, 0;
    for j := 0 to 24
      invariant m == Packed(bits[..24], j) && n == Packed(bits[24..], j)
    {
      if pcr[Pc2(j)] { m := Or(m, BigByte(j)); }
      if pcr[Pc2(j + 24)] { n := Or(n, BigByte(j)); }
    }
  }

  class KeyRegister {
    const knl: array<bv32>

    constructor ()
      ensures knl.Length == 32 && fresh(knl)
    {
      knl := new bv32[32];
    }

    ghost function Keys(): (ks: seq<Pair>)
      requires knl.Length == 32
      reads knl
    {
      PairsOf(knl[..])
    }

    /** deskey: the cooked schedule of the key, in order for EN0 and pairwise reversed for DE1. */
    method SetKey(key: seq<bv8>, edf: Mode)
      requires |key| == 8 && knl.Length == 32
      modifies knl
      ensures Keys() == if edf == DE1 then Reverse(KeyPairs(key)) else KeyPairs(key)
    {
      hide Cook, RawPair, KeyBit, Pc1, Totrot, Registers;
      var pc1m := new bool[56];
      for j := 0 to 56
        invariant forall t :: 0 <= t < j ==> pc1m[t] == KeyBit(key, Pc1(t))
      {
        pc1m[j] := KeyBit(key, Pc1(j));
      }
      assert pc1m[..] == Selected(key);
      var kn := new bv32[32];
      for i := 0 to 16
        invariant pc1m[..] == Selected(key)
        invariant forall t :: 0 <= t < i ==> Pair(kn[2 * Place(edf, t)], kn[2 * Place(edf, t) + 1]) == RawPair(key, t)
      {
        TotalRotation(key, i);
        var pcr := Rotated(pc1m[..], Totrot(i));
        var m := 2 * Place(edf, i);
        kn[m], kn[m + 1] := PackRound(pcr, key, i);
      }
      CookKey(kn);
    }

    /** desfunc: eight iterations of two half-rounds under the loaded keys. */
    method DesFunc(sp: SP, block: Pair) returns (b: Pair)
      requires knl.Length == 32
      ensures b == DesBlock(sp, Keys(), block)
    {
      hide Opening, Closing, F, Xor, Feistel, PairsOf;
      var h := Opening(block);
      var leftt, right := h.l, h.r;
      ghost var ks := Keys();
      FeistelNone(sp, ks, h);
      for round := 0 to 8
        invariant Pair(leftt, right) == Feistel(sp, ks[..2 * round], h)
      {
        FeistelTwo(sp, ks, 2 * round, h);
        PairAt(knl[..], 2 * round);
        PairAt(knl[..], 2 * round + 1);
        leftt := Xor(leftt, F(sp, right, Pair(knl[4 * round], knl[4 * round + 1])));
        right := Xor(right, F(sp, leftt, Pair(knl[4 * round + 2], knl[4 * round + 3])));
      }
      assert ks[..16] == ks;
      b := Closing(Pair(leftt, right));
    }

    /** des: one block of eight bytes; input and output may be the same array. */
    method DesBytes(sp: SP, inblock: array<bv8>, outblock: array<bv8>)
      requires knl.Length == 32 && inblock.Length == 8 && outblock.Length == 8
      modifies outblock
      ensures outblock[..] == Unscrun(DesBlock(sp, Keys(), Scrunch(old(inblock[..]))))
    {
      hide DesBlock, Scrunch;
      ghost var ks := Keys();
      var work := DesFunc(sp, Scrunch(inblock[..]));
      var bytes := Unscrun(work);
      for j := 0 to 8
        invariant outblock[..j] == bytes[..j]
      {
        outblock[j] := bytes[j];
      }
      assert outblock[..] == bytes;
    }

    /** cookey and usekey: cook each raw pair and load the register. */
    method CookKey(raw: array<bv32>)
      requires raw.Length == 32 && knl.Length == 32 && raw != knl
      modifies knl
      ensures forall i :: 0 <= i < 16 ==> Keys()[i] == Cook(Pair(raw[2 * i], raw[2 * i + 1]))
    {
      hide Cook;
      var dough := new bv32[32];
      for i := 0 to 16
        invariant forall t :: 0 <= t < i ==>
                    Pair(dough[2 * t], dough[2 * t + 1]) == Cook(Pair(raw[2 * t], raw[2 * t + 1]))
      {
        var c := Cook(Pair(raw[2 * i], raw[2 * i + 1]));
        dough[2 * i], dough[2 * i + 1] := c.l, c.r;
      }
      for t := 0 to 32
        invariant forall u :: 0 <= u < t ==> knl[u] == dough[u]
        invariant forall t :: 0 <= t < 16 ==>
                    Pair(dough[2 * t], dough[2 * t + 1]) == Cook(Pair(raw[2 * t], raw[2 * t + 1]))
      {
        knl[t] := dough[t];
      }
    }
  }

  ghost function PairsOf(w: seq<bv32>): (ks: seq<Pair>)
    requires |w| == 32
    ensures |ks| == 16
  {
    seq(16, i requires 0 <= i < 16 => Pair(w[2 * i], w[2 * i + 1]))
  }

  lemma {:induction false} PairAt(w: seq<bv32>, i: nat)
    requires |w| == 32 && i < 16
    ensures PairsOf(w)[i] == Pair(w[2 * i], w[2 * i + 1])
  {}

  lemma {:induction false} FeistelNone(sp: SP, ks: seq<Pair>, h: Pair)
    ensures Feistel(sp, ks[..0], h) == h
  {}

  lemma {:induction false} FeistelTwo(sp: SP, ks: seq<Pair>, n: nat, h: Pair)
    requires n + 2 <= |ks|
    ensures Feistel(sp, ks[..n + 2], h) == HalfRound(sp, ks[n + 1], HalfRound(sp, ks[n], Feistel(sp, ks[..n], h)))
  {
    hide HalfRound;
    assert ks[..n + 2][..n + 1] == ks[..n + 1] && ks[..n + 1][..n] == ks[..n];
  }

  // ----- bytes and words

  function Scrunch(b: seq<bv8>): Pair
    requires |b| == 8
  {
    Pair(((b[0] as bv32) << 24) | ((b[1] as bv32) << 16) | ((b[2] as bv32) << 8) | (b[3] as bv32),
         ((b[4] as bv32) << 24) | ((b[5] as bv32) << 16) | ((b[6] as bv32) << 8) | (b[7] as bv32))
  }

  function Unscrun(p: Pair): (b: seq<bv8>)
    ensures |b| == 8
  {
    [((p.l >> 24) & 0xff) as bv8, ((p.l >> 16) & 0xff) as bv8, ((p.l >> 8) & 0xff) as bv8, (p.l & 0xff) as bv8,
     ((p.r >> 24) & 0xff) as bv8, ((p.r >> 16) & 0xff) as bv8, ((p.r >> 8) & 0xff) as bv8, (p.r & 0xff) as bv8]
  }

  lemma {:induction false} UnscrunScrunch(b: seq<bv8>)
    requires |b| == 8
    ensures Unscrun(Scrunch(b)) == b
  {}

  lemma {:induction false} ScrunchUnscrun(p: Pair)
    ensures Scrunch(Unscrun(p)) == p
  {}

  // ----- the inverse law

  /** For every key, block and SP tables: des under deskey(k, DE1) inverts des under deskey(k, EN0). */
  lemma {:induction false} DecipherInverts(sp: SP, key: seq<bv8>, b: seq<bv8>)
    requires |key| == 8 && |b| == 8
    ensures Unscrun(DesBlock(sp, Reverse(KeyPairs(key)),
                             Scrunch(Unscrun(DesBlock(sp, KeyPairs(key), Scrunch(b)))))) == b
  {
    hide DesBlock, Scrunch, Unscrun, KeyPairs, Reverse;
    ScrunchUnscrun(DesBlock(sp, KeyPairs(key), Scrunch(b)));
    DesInverse(sp, KeyPairs(key), Scrunch(b));
    UnscrunScrunch(b);
  }

  /** The same law, run through one key register. */
  method EncryptThenDecrypt(sp: SP, key: seq<bv8>, buf: array<bv8>)
    requires |key| == 8 && buf.Length == 8
    modifies buf
    ensures buf[..] == old(buf[..])
  {
    hide DesBlock, Scrunch, Unscrun, KeyPairs, Reverse;
    var reg := new KeyRegister();
    reg.SetKey(key, EN0);
    reg.DesBytes(sp, buf, buf);
    reg.SetKey(key, DE1);
    reg.DesBytes(sp, buf, buf);
    DecipherInverts(sp, key, old(buf[..]));
  }
}
