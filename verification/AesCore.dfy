/**
 aes.c itself: key set-up, block encryption and block decryption by table lookup, on a key
 object whose round-key array is filled, reversed and transformed in place.
 */
module AesCore {
  import opened AesField
  import opened AesCipher

  class AesKey {
    const rdKey: array<bv32>
    var rounds: int

    constructor ()
      ensures fresh(rdKey) && rdKey.Length == 60
    {
      rdKey := new bv32[60];
      rounds := 0;
    }
  }

  /** The variables s0..s3 (or t0..t3) of the round loops, or four words of round key. */
  datatype Quad = Quad(w0: bv32, w1: bv32, w2: bv32, w3: bv32)

  function Cols(q: Quad): State { State(Unpack(q.w0), Unpack(q.w1), Unpack(q.w2), Unpack(q.w3)) }

  function RoundKey(rk: seq<bv32>, p: nat): Quad
    requires p + 4 <= |rk|
  {
    Quad(rk[p], rk[p + 1], rk[p + 2], rk[p + 3])
  }

  /** The round keys held in a round-key array. */
  ghost function Schedule(rk: seq<bv32>, rounds: nat): (ks: seq<State>)
    requires 4 * (rounds + 1) <= |rk|
    ensures |ks| == rounds + 1
    ensures forall i :: 0 <= i <= rounds ==> ks[i] == Cols(RoundKey(rk, 4 * i))
  {
    seq(rounds + 1, i requires 0 <= i <= rounds => Cols(RoundKey(rk, 4 * i)))
  }

  function BlockState(b: seq<bv8>): State
    requires |b| == 16
  {
    State(Col(b[0], b[1], b[2], b[3]), Col(b[4], b[5], b[6], b[7]),
          Col(b[8], b[9], b[10], b[11]), Col(b[12], b[13], b[14], b[15]))
  }

  function StateBlock(x: State): (b: seq<bv8>)
    ensures |b| == 16 && BlockState(b) == x
  {
    [x.c0.r0, x.c0.r1, x.c0.r2, x.c0.r3, x.c1.r0, x.c1.r1, x.c1.r2, x.c1.r3,
     x.c2.r0, x.c2.r1, x.c2.r2, x.c2.r3, x.c3.r0, x.c3.r1, x.c3.r2, x.c3.r3]
  }

  // ----- the lookup expressions of aes.c

  function TeRow(sb: SBox, w0: bv32, w1: bv32, w2: bv32, w3: bv32, k: bv32): bv32 {
    Te0(sb, Byte3(w0)) ^ Te1(sb, Byte2(w1)) ^ Te2(sb, Byte1(w2)) ^ Te3(sb, Byte0(w3)) ^ k
  }

  function TdRow(sb: SBox, w0: bv32, w1: bv32, w2: bv32, w3: bv32, k: bv32): bv32 {
    Td0(sb, Byte3(w0)) ^ Td1(sb, Byte2(w1)) ^ Td2(sb, Byte1(w2)) ^ Td3(sb, Byte0(w3)) ^ k
  }

  function TeLast(sb: SBox, w0: bv32, w1: bv32, w2: bv32, w3: bv32, k: bv32): bv32 {
    (Te4(sb, Byte3(w0)) & 0xff000000) ^ (Te4(sb, Byte2(w1)) & 0x00ff0000) ^
    (Te4(sb, Byte1(w2)) & 0x0000ff00) ^ (Te4(sb, Byte0(w3)) & 0x000000ff) ^ k
  }

  function TdLast(sb: SBox, w0: bv32, w1: bv32, w2: bv32, w3: bv32, k: bv32): bv32 {
    (Td4(sb, Byte3(w0)) & 0xff000000) ^ (Td4(sb, Byte2(w1)) & 0x00ff0000) ^
    (Td4(sb, Byte1(w2)) & 0x0000ff00) ^ (Td4(sb, Byte0(w3)) & 0x000000ff) ^ k
  }

  function AddWords(s: Quad, k: Quad): Quad { Quad(s.w0 ^ k.w0, s.w1 ^ k.w1, s.w2 ^ k.w2, s.w3 ^ k.w3) }

  function EncRound(sb: SBox, s: Quad, k: Quad): Quad {
    Quad(TeRow(sb, s.w0, s.w1, s.w2, s.w3, k.w0), TeRow(sb, s.w1, s.w2, s.w3, s.w0, k.w1),
         TeRow(sb, s.w2, s.w3, s.w0, s.w1, k.w2), TeRow(sb, s.w3, s.w0, s.w1, s.w2, k.w3))
  }

  function DecRound(sb: SBox, s: Quad, k: Quad): Quad {
    Quad(TdRow(sb, s.w0, s.w3, s.w2, s.w1, k.w0), TdRow(sb, s.w1, s.w0, s.w3, s.w2, k.w1),
         TdRow(sb, s.w2, s.w1, s.w0, s.w3, k.w2), TdRow(sb, s.w3, s.w2, s.w1, s.w0, k.w3))
  }

  function EncLast(sb: SBox, t: Quad, k: Quad): Quad {
    Quad(TeLast(sb, t.w0, t.w1, t.w2, t.w3, k.w0), TeLast(sb, t.w1, t.w2, t.w3, t.w0, k.w1),
         TeLast(sb, t.w2, t.w3, t.w0, t.w1, k.w2), TeLast(sb, t.w3, t.w0, t.w1, t.w2, k.w3))
  }

  function DecLast(sb: SBox, t: Quad, k: Quad): Quad {
    Quad(TdLast(sb, t.w0, t.w3, t.w2, t.w1, k.w0), TdLast(sb, t.w1, t.w0, t.w3, t.w2, k.w1),
         TdLast(sb, t.w2, t.w1, t.w0, t.w3, k.w2), TdLast(sb, t.w3, t.w2, t.w1, t.w0, k.w3))
  }

  // ----- the lookups refine the rounds of FIPS-197

  lemma {:induction false} TeRowColumn(sb: SBox, w0: bv32, w1: bv32, w2: bv32, w3: bv32, k: bv32)
    ensures Unpack(TeRow(sb, w0, w1, w2, w3, k))
         == AddCol(Mix(Col(sb.s(Unpack(w0).r0), sb.s(Unpack(w1).r1), sb.s(Unpack(w2).r2), sb.s(Unpack(w3).r3))),
                   Unpack(k))
  {
    hide Byte0, Byte1, Byte2, Byte3, Te0, Te1, Te2, Te3, Mix, AddCol;
    TableColumn(sb, Byte3(w0), Byte2(w1), Byte1(w2), Byte0(w3), k);
  }

  lemma {:induction false} TdRowColumn(sb: SBox, w0: bv32, w1: bv32, w2: bv32, w3: bv32, k: bv32)
    ensures Unpack(TdRow(sb, w0, w1, w2, w3, k))
         == AddCol(InvMix(Col(sb.si(Unpack(w0).r0), sb.si(Unpack(w1).r1), sb.si(Unpack(w2).r2), sb.si(Unpack(w3).r3))),
                   Unpack(k))
  {
    hide Byte0, Byte1, Byte2, Byte3, Td0, Td1, Td2, Td3, InvMix, AddCol;
    InvTableColumn(sb, Byte3(w0), Byte2(w1), Byte1(w2), Byte0(w3), k);
  }

  lemma {:induction false} TeLastColumn(sb: SBox, w0: bv32, w1: bv32, w2: bv32, w3: bv32, k: bv32)
    ensures Unpack(TeLast(sb, w0, w1, w2, w3, k))
         == AddCol(Col(sb.s(Unpack(w0).r0), sb.s(Unpack(w1).r1), sb.s(Unpack(w2).r2), sb.s(Unpack(w3).r3)), Unpack(k))
  {
    hide Byte0, Byte1, Byte2, Byte3, Pack, AddCol;
    LastColumn(sb.s(Byte3(w0)), sb.s(Byte2(w1)), sb.s(Byte1(w2)), sb.s(Byte0(w3)), k);
  }

  lemma {:induction false} TdLastColumn(sb: SBox, w0: bv32, w1: bv32, w2: bv32, w3: bv32, k: bv32)
    ensures Unpack(TdLast(sb, w0, w1, w2, w3, k))
         == AddCol(Col(sb.si(Unpack(w0).r0), sb.si(Unpack(w1).r1), sb.si(Unpack(w2).r2), sb.si(Unpack(w3).r3)),
                   Unpack(k))
  {
    hide Byte0, Byte1, Byte2, Byte3, Pack, AddCol;
    LastColumn(sb.si(Byte3(w0)), sb.si(Byte2(w1)), sb.si(Byte1(w2)), sb.si(Byte0(w3)), k);
  }

  /** A table round is SubBytes, ShiftRows, MixColumns and AddRoundKey. */
  lemma {:induction false} EncRoundRefines(sb: SBox, s: Quad, k: Quad)
    ensures Cols(EncRound(sb, s, k)) == AddKey(MixColumns(ShiftRows(SubBytes(sb.s, Cols(s)))), Cols(k))
  {
    hide Unpack, TeRow, AddCol, Mix;
    TeRowColumn(sb, s.w0, s.w1, s.w2, s.w3, k.w0); TeRowColumn(sb, s.w1, s.w2, s.w3, s.w0, k.w1);
    TeRowColumn(sb, s.w2, s.w3, s.w0, s.w1, k.w2); TeRowColumn(sb, s.w3, s.w0, s.w1, s.w2, k.w3);
  }

  /** A decryption table round is a round of the equivalent inverse cipher. */
  lemma {:induction false} DecRoundRefines(sb: SBox, s: Quad, k: Quad)
    ensures Cols(DecRound(sb, s, k)) == AddKey(InvMixColumns(InvShiftRows(SubBytes(sb.si, Cols(s)))), Cols(k))
  {
    hide Unpack, TdRow, AddCol, InvMix;
    TdRowColumn(sb, s.w0, s.w3, s.w2, s.w1, k.w0); TdRowColumn(sb, s.w1, s.w0, s.w3, s.w2, k.w1);
    TdRowColumn(sb, s.w2, s.w1, s.w0, s.w3, k.w2); TdRowColumn(sb, s.w3, s.w2, s.w1, s.w0, k.w3);
  }

  lemma {:induction false} EncLastRefines(sb: SBox, t: Quad, k: Quad)
    ensures Cols(EncLast(sb, t, k)) == AddKey(ShiftRows(SubBytes(sb.s, Cols(t))), Cols(k))
  {
    hide Unpack, TeLast, AddCol;
    TeLastColumn(sb, t.w0, t.w1, t.w2, t.w3, k.w0); TeLastColumn(sb, t.w1, t.w2, t.w3, t.w0, k.w1);
    TeLastColumn(sb, t.w2, t.w3, t.w0, t.w1, k.w2); TeLastColumn(sb, t.w3, t.w0, t.w1, t.w2, k.w3);
  }

  lemma {:induction false} DecLastRefines(sb: SBox, t: Quad, k: Quad)
    ensures Cols(DecLast(sb, t, k)) == AddKey(InvShiftRows(SubBytes(sb.si, Cols(t))), Cols(k))
  {
    hide Unpack, TdLast, AddCol;
    TdLastColumn(sb, t.w0, t.w3, t.w2, t.w1, k.w0); TdLastColumn(sb, t.w1, t.w0, t.w3, t.w2, k.w1);
    TdLastColumn(sb, t.w2, t.w1, t.w0, t.w3, k.w2); TdLastColumn(sb, t.w3, t.w2, t.w1, t.w0, k.w3);
  }

  lemma {:induction false} AddWordsRefines(s: Quad, k: Quad)
    ensures Cols(AddWords(s, k)) == AddKey(Cols(s), Cols(k))
  {
    hide Unpack, AddCol;
    UnpackXor(s.w0, k.w0); UnpackXor(s.w1, k.w1); UnpackXor(s.w2, k.w2); UnpackXor(s.w3, k.w3);
  }

  // ----- block encryption and decryption

  ghost function EncryptBlock(sb: SBox, ks: seq<State>, b: seq<bv8>): (c: seq<bv8>)
    requires |ks| >= 2 && |b| == 16
    ensures |c| == 16
  {
    StateBlock(Cipher(sb, ks, BlockState(b)))
  }

  ghost function DecryptBlock(sb: SBox, dk: seq<State>, c: seq<bv8>): (b: seq<bv8>)
    requires |dk| >= 2 && |c| == 16
    ensures |b| == 16
  {
    StateBlock(EqInvCipher(sb, dk, BlockState(c)))
  }

  ghost predicate Usable(key: AesKey)
    reads key
  {
    key.rounds in {10, 12, 14} && key.rdKey.Length == 60
  }

  method GetState(inp: array<bv8>, i: nat) returns (q: Quad)
    requires i + 16 <= inp.Length
    ensures Cols(q) == BlockState(inp[i..i + 16])
  {
    hide Unpack, Pack;
    var (a, b) := (Col(inp[i], inp[i + 1], inp[i + 2], inp[i + 3]),
                   Col(inp[i + 4], inp[i + 5], inp[i + 6], inp[i + 7]));
    var (c, d) := (Col(inp[i + 8], inp[i + 9], inp[i + 10], inp[i + 11]),
                   Col(inp[i + 12], inp[i + 13], inp[i + 14], inp[i + 15]));
    q := Quad(Pack(a), Pack(b), Pack(c), Pack(d));
    UnpackPack(a); UnpackPack(b); UnpackPack(c); UnpackPack(d);
  }

  method PutWord(out: array<bv8>, o: nat, w: bv32)
    requires o + 4 <= out.Length
    modifies out
    ensures Col(out[o], out[o + 1], out[o + 2], out[o + 3]) == Unpack(w)
    ensures forall j :: 0 <= j < out.Length && !(o <= j < o + 4) ==> out[j] == old(out[j])
  {
    hide Byte0, Byte1, Byte2, Byte3;
    out[o], out[o + 1], out[o + 2], out[o + 3] := Byte3(w), Byte2(w), Byte1(w), Byte0(w);
  }

  method PutState(out: array<bv8>, o: nat, q: Quad)
    requires o + 16 <= out.Length
    modifies out
    ensures out[o..o + 16] == StateBlock(Cols(q))
    ensures forall j :: 0 <= j < out.Length && !(o <= j < o + 16) ==> out[j] == old(out[j])
  {
    hide Unpack;
    PutWord(out, o, q.w0);
    PutWord(out, o + 4, q.w1);
    PutWord(out, o + 8, q.w2);
    PutWord(out, o + 12, q.w3);
  }

  /** The round loop of AES_encrypt, two rounds per iteration. */
  method EncryptWords(sb: SBox, rk: seq<bv32>, rounds: nat, w: Quad) returns (s: Quad)
    requires rounds in {10, 12, 14} && |rk| == 60
    ensures Cols(s) == Cipher(sb, Schedule(rk, rounds), Cols(w))
  {
    hide Cols, RoundKey, AddWords, EncRound, EncLast, AddKey, SubBytes, ShiftRows, MixColumns;
    ghost var ks, n := Schedule(rk, rounds), 0;
    AddWordsRefines(w, RoundKey(rk, 0));
    s := AddWords(w, RoundKey(rk, 0));
    var t, r, p := s, rounds / 2, 0;
    while true
      invariant 0 < r && n == rounds - 2 * r && p == 4 * n
      invariant Cols(s) == Rounds(sb, ks, Cols(w), n)
      decreases r
    {
      EncRoundRefines(sb, s, RoundKey(rk, p + 4));
      t := EncRound(sb, s, RoundKey(rk, p + 4));
      assert Cols(t) == Rounds(sb, ks, Cols(w), n + 1);
      p, r, n := p + 8, r - 1, n + 2;
      if r == 0 { break; }
      EncRoundRefines(sb, t, RoundKey(rk, p));
      s := EncRound(sb, t, RoundKey(rk, p));
    }
    EncLastRefines(sb, t, RoundKey(rk, p));
    s := EncLast(sb, t, RoundKey(rk, p));
  }

  /** The round loop of AES_decrypt, two rounds per iteration. */
  method DecryptWords(sb: SBox, rk: seq<bv32>, rounds: nat, w: Quad) returns (s: Quad)
    requires rounds in {10, 12, 14} && |rk| == 60
    ensures Cols(s) == EqInvCipher(sb, Schedule(rk, rounds), Cols(w))
  {
    hide Cols, RoundKey, AddWords, DecRound, DecLast, AddKey, SubBytes, InvShiftRows, InvMixColumns;
    ghost var ks, n := Schedule(rk, rounds), 0;
    AddWordsRefines(w, RoundKey(rk, 0));
    s := AddWords(w, RoundKey(rk, 0));
    var t, r, p := s, rounds / 2, 0;
    while true
      invariant 0 < r && n == rounds - 2 * r && p == 4 * n
      invariant Cols(s) == EqInvRounds(sb, ks, Cols(w), n)
      decreases r
    {
      DecRoundRefines(sb, s, RoundKey(rk, p + 4));
      t := DecRound(sb, s, RoundKey(rk, p + 4));
      assert Cols(t) == EqInvRounds(sb, ks, Cols(w), n + 1);
      p, r, n := p + 8, r - 1, n + 2;
      if r == 0 { break; }
      DecRoundRefines(sb, t, RoundKey(rk, p));
      s := DecRound(sb, t, RoundKey(rk, p));
    }
    DecLastRefines(sb, t, RoundKey(rk, p));
    s := DecLast(sb, t, RoundKey(rk, p));
  }

  /** AES_encrypt: the input block may be the output block or overlap it. */
  method Encrypt(sb: SBox, inp: array<bv8>, i: nat, out: array<bv8>, o: nat, key: AesKey)
    requires i + 16 <= inp.Length && o + 16 <= out.Length && Usable(key)
    modifies out
    ensures out[o..o + 16] == EncryptBlock(sb, Schedule(key.rdKey[..], key.rounds), old(inp[i..i + 16]))
    ensures forall j :: 0 <= j < out.Length && !(o <= j < o + 16) ==> out[j] == old(out[j])
  {
    hide Cols, BlockState, StateBlock, Cipher;
    var s := GetState(inp, i);
    s := EncryptWords(sb, key.rdKey[..], key.rounds, s);
    PutState(out, o, s);
  }

  /** AES_decrypt: the input block may be the output block or overlap it. */
  method Decrypt(sb: SBox, inp: array<bv8>, i: nat, out: array<bv8>, o: nat, key: AesKey)
    requires i + 16 <= inp.Length && o + 16 <= out.Length && Usable(key)
    modifies out
    ensures out[o..o + 16] == DecryptBlock(sb, Schedule(key.rdKey[..], key.rounds), old(inp[i..i + 16]))
    ensures forall j :: 0 <= j < out.Length && !(o <= j < o + 16) ==> out[j] == old(out[j])
  {
    hide Cols, BlockState, StateBlock, EqInvCipher;
    var s := GetState(inp, i);
    s := DecryptWords(sb, key.rdKey[..], key.rounds, s);
    PutState(out, o, s);
  }
}
