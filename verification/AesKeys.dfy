/**
 Key set-up of aes.c: the three unrolled expansion loops and the in-place transformation of
 an encryption schedule into a decryption schedule; and the round trip they were built for.
 */
module AesKeys {
  import opened Words
  import opened AesField
  import opened AesCipher
  import opened AesCore

  const RconWords: seq<bv32> := [0x01000000, 0x02000000, 0x04000000, 0x08000000, 0x10000000,
                                 0x20000000, 0x40000000, 0x80000000, 0x1B000000, 0x36000000]

  function Rcon(i: nat): bv32
    requires i < 10
  {
    RconWords[i]
  }

  function NumRounds(bits: int): nat { if bits == 128 then 10 else if bits == 192 then 12 else 14 }

  predicate ValidBits(bits: int) { bits == 128 || bits == 192 || bits == 256 }

  function KeyWords(userKey: seq<bv8>, bits: int): (ws: seq<bv32>)
    requires ValidBits(bits) && |userKey| >= bits / 8
    ensures |ws| == bits / 32
  {
    seq(bits / 32, i requires 0 <= i < bits / 32 =>
      Pack(Col(userKey[4 * i], userKey[4 * i + 1], userKey[4 * i + 2], userKey[4 * i + 3])))
  }

  /** The expanded key of section 5.2 of FIPS-197. */
  ghost function ExpandedKey(sb: SBox, userKey: seq<bv8>, bits: int): (ws: seq<bv32>)
    requires ValidBits(bits) && |userKey| >= bits / 8
    ensures |ws| == 4 * (NumRounds(bits) + 1)
  {
    seq(4 * (NumRounds(bits) + 1), i requires 0 <= i => KeyWord(sb, KeyWords(userKey, bits), i))
  }

  ghost function KeySchedule(sb: SBox, userKey: seq<bv8>, bits: int): (ks: seq<State>)
    requires ValidBits(bits) && |userKey| >= bits / 8
    ensures |ks| == NumRounds(bits) + 1
  {
    Schedule(ExpandedKey(sb, userKey, bits), NumRounds(bits))
  }

  /** SubWord(RotWord(temp)) as the key expansion computes it. */
  function SubRot(sb: SBox, temp: bv32): bv32 {
    (Te4(sb, Byte2(temp)) & 0xff000000) ^ (Te4(sb, Byte1(temp)) & 0x00ff0000) ^
    (Te4(sb, Byte0(temp)) & 0x0000ff00) ^ (Te4(sb, Byte3(temp)) & 0x000000ff)
  }

  function SubOnly(sb: SBox, temp: bv32): bv32 {
    (Te4(sb, Byte3(temp)) & 0xff000000) ^ (Te4(sb, Byte2(temp)) & 0x00ff0000) ^
    (Te4(sb, Byte1(temp)) & 0x0000ff00) ^ (Te4(sb, Byte0(temp)) & 0x000000ff)
  }

  /** InvMixColumns of a round-key word through both tables. */
  function InvMixWord(sb: SBox, w: bv32): bv32 {
    Td0(sb, Byte0(Te4(sb, Byte3(w)))) ^ Td1(sb, Byte0(Te4(sb, Byte2(w)))) ^
    Td2(sb, Byte0(Te4(sb, Byte1(w)))) ^ Td3(sb, Byte0(Te4(sb, Byte0(w))))
  }

  // ----- the word operations

  lemma {:induction false} AddColZero(c: Col)
    ensures AddCol(c, Unpack(0)) == c
  {}

  lemma {:induction false} MaskedBytes(a: bv8, b: bv8, c: bv8, d: bv8)
    ensures (Pack(Col(a, a, a, a)) & 0xff000000) ^ (Pack(Col(b, b, b, b)) & 0x00ff0000) ^
            (Pack(Col(c, c, c, c)) & 0x0000ff00) ^ (Pack(Col(d, d, d, d)) & 0x000000ff) == Pack(Col(a, b, c, d))
  {
    hide Pack, Unpack, AddCol;
    LastColumn(a, b, c, d, 0);
    AddColZero(Col(a, b, c, d));
    PackUnpack((Pack(Col(a, a, a, a)) & 0xff000000) ^ (Pack(Col(b, b, b, b)) & 0x00ff0000) ^
               (Pack(Col(c, c, c, c)) & 0x0000ff00) ^ (Pack(Col(d, d, d, d)) & 0x000000ff));
  }

  lemma {:induction false} SubRotRefines(sb: SBox, temp: bv32)
    ensures SubRot(sb, temp) == SubWord(sb, RotWord(temp))
  {
    hide Pack, Byte0, Byte1, Byte2, Byte3;
    var u := Unpack(temp);
    UnpackPack(RotCol(u));
    MaskedBytes(sb.s(u.r1), sb.s(u.r2), sb.s(u.r3), sb.s(u.r0));
  }

  lemma {:induction false} SubOnlyRefines(sb: SBox, temp: bv32)
    ensures SubOnly(sb, temp) == SubWord(sb, temp)
  {
    hide Pack, Byte0, Byte1, Byte2, Byte3;
    var u := Unpack(temp);
    MaskedBytes(sb.s(u.r0), sb.s(u.r1), sb.s(u.r2), sb.s(u.r3));
  }

  lemma {:induction false} RconTable(i: nat)
    requires i < 10
    ensures Rcon(i) == Pack(Col(RconByte(i + 1), 0, 0, 0))
  {
    assert RconByte(2) == 2 && RconByte(3) == 4 && RconByte(4) == 8;
    assert RconByte(5) == 16 && RconByte(6) == 32 && RconByte(7) == 64;
    assert RconByte(8) == 128 && RconByte(9) == 0x1b && RconByte(10) == 0x36;
  }

  lemma {:induction false} LowByte(y: bv8)
    ensures Byte0(Pack(Col(y, y, y, y))) == y
  {
    UnpackPack(Col(y, y, y, y));
  }

  lemma {:induction false} InvMixWordRefines(sb: SBox, w: bv32)
    requires Inverses(sb)
    ensures Unpack(InvMixWord(sb, w)) == InvMix(Unpack(w))
  {
    hide Pack, Byte0, Byte1, Byte2, Byte3, Td0, Td1, Td2, Td3, InvMix, AddCol;
    var u := Unpack(w);
    LowByte(sb.s(u.r0)); LowByte(sb.s(u.r1)); LowByte(sb.s(u.r2)); LowByte(sb.s(u.r3));
    InvTableColumn(sb, sb.s(u.r0), sb.s(u.r1), sb.s(u.r2), sb.s(u.r3), 0);
    AddColZero(InvMix(u));
  }

  // ----- the recurrence, in the shape the unrolled loops use it

  lemma {:induction false} ModOffset(nk: nat, m: nat, d: nat)
    requires nk in {4, 6, 8} && d < nk
    ensures (nk * m + d) % nk == d
  {
    if nk == 4 {} else if nk == 6 {} else {}
  }

  lemma {:induction false} MultipleOf(nk: nat, m: nat)
    requires nk in {4, 6, 8} && m >= 1
    ensures nk * m >= nk && (nk * m) % nk == 0 && (nk * m) / nk == m && nk * m - nk == nk * (m - 1)
  {
    if nk == 4 {} else if nk == 6 {} else {}
  }

  lemma {:induction false} KeyWordRot(sb: SBox, key: seq<bv32>, i: nat)
    requires |key| > 0 && i >= |key| && i % |key| == 0
    ensures KeyWord(sb, key, i)
         == Xor(KeyWord(sb, key, i - |key|),
                Xor(SubWord(sb, RotWord(KeyWord(sb, key, i - 1))), Pack(Col(RconByte(i / |key|), 0, 0, 0))))
  {
    hide Xor, SubWord, RotWord, Pack, RconByte;
  }

  lemma {:induction false} KeyRot(sb: SBox, key: seq<bv32>, m: nat)
    requires |key| in {4, 6, 8} && 1 <= m <= 10
    ensures KeyWord(sb, key, |key| * m)
         == Xor(Xor(KeyWord(sb, key, |key| * (m - 1)), SubRot(sb, KeyWord(sb, key, |key| * m - 1))), Rcon(m - 1))
  {
    hide Xor, SubRot, SubWord, RotWord, Pack, Rcon, RconByte, KeyWord;
    var i := |key| * m;
    MultipleOf(|key|, m);
    KeyWordRot(sb, key, i);
    SubRotRefines(sb, KeyWord(sb, key, i - 1));
    RconTable(m - 1);
    XorAssoc(KeyWord(sb, key, i - |key|), SubRot(sb, KeyWord(sb, key, i - 1)), Rcon(m - 1));
  }

  lemma {:induction false} KeyPlain(sb: SBox, key: seq<bv32>, i: nat)
    requires |key| in {4, 6, 8} && i >= |key| && i % |key| != 0 && !(|key| == 8 && i % 8 == 4)
    ensures KeyWord(sb, key, i) == Xor(KeyWord(sb, key, i - |key|), KeyWord(sb, key, i - 1))
  {
    hide Xor, SubWord, RotWord, Pack, RconByte;
  }

  lemma {:induction false} KeyMid(sb: SBox, key: seq<bv32>, i: nat)
    requires |key| == 8 && i >= 8 && i % 8 == 4
    ensures KeyWord(sb, key, i) == Xor(KeyWord(sb, key, i - 8), SubOnly(sb, KeyWord(sb, key, i - 1)))
  {
    hide Xor, SubOnly, SubWord, RotWord, Pack, RconByte;
    SubOnlyRefines(sb, KeyWord(sb, key, i - 1));
  }

  ghost predicate Expanded(sb: SBox, key: seq<bv32>, a: array<bv32>, n: nat)
    requires |key| > 0
    reads a
  {
    n <= a.Length && forall k :: 0 <= k < n ==> a[k] == KeyWord(sb, key, k)
  }

  /** One word of expansion that needs no substitution. */
  method PlainWord(sb: SBox, a: array<bv32>, nk: nat, q: nat, ghost key: seq<bv32>)
    requires nk == |key| && nk in {4, 6, 8} && nk <= q < a.Length && Expanded(sb, key, a, q)
    requires q % nk != 0 && !(nk == 8 && q % 8 == 4)
    modifies a
    ensures Expanded(sb, key, a, q + 1)
  {
    hide Xor, KeyWord;
    KeyPlain(sb, key, q);
    a[q] := Xor(a[q - nk], a[q - 1]);
  }

  /** Four words of expansion after word p + nk - 1, the first from the rotated previous word. */
  method ExpandFour(sb: SBox, a: array<bv32>, nk: nat, p: nat, i: nat, ghost key: seq<bv32>)
    requires a.Length == 60 && nk == |key| && nk in {4, 6, 8} && i < 10
    requires p == nk * i && p + nk + 4 <= 60 && Expanded(sb, key, a, p + nk)
    modifies a
    ensures Expanded(sb, key, a, p + nk + 4)
  {
    hide Xor, KeyWord, SubRot, Rcon;
    var q := p + nk;
    assert q == nk * (i + 1);
    ModOffset(nk, i + 1, 1); ModOffset(nk, i + 1, 2); ModOffset(nk, i + 1, 3);
    KeyRot(sb, key, i + 1);
    a[q] := Xor(Xor(a[p], SubRot(sb, a[q - 1])), Rcon(i));
    PlainWord(sb, a, nk, q + 1, key);
    PlainWord(sb, a, nk, q + 2, key);
    PlainWord(sb, a, nk, q + 3, key);
  }

  method Expand128(sb: SBox, a: array<bv32>, ghost key: seq<bv32>)
    requires a.Length == 60 && |key| == 4 && Expanded(sb, key, a, 4)
    modifies a
    ensures Expanded(sb, key, a, 44)
  {
    hide Xor, KeyWord;
    var i, rk := 0, 0;
    while true
      invariant 0 <= i < 10 && rk == 4 * i && Expanded(sb, key, a, rk + 4)
      decreases 10 - i
    {
      ExpandFour(sb, a, 4, rk, i, key);
      i := i + 1;
      if i == 10 { return; }
      rk := rk + 4;
    }
  }

  method Expand192(sb: SBox, a: array<bv32>, ghost key: seq<bv32>)
    requires a.Length == 60 && |key| == 6 && Expanded(sb, key, a, 6)
    modifies a
    ensures Expanded(sb, key, a, 52)
  {
    hide Xor, KeyWord;
    var i, rk := 0, 0;
    while true
      invariant 0 <= i < 8 && rk == 6 * i && Expanded(sb, key, a, rk + 6)
      decreases 8 - i
    {
      ExpandFour(sb, a, 6, rk, i, key);
      i := i + 1;
      if i == 8 { return; }
      PlainWord(sb, a, 6, rk + 10, key);
      PlainWord(sb, a, 6, rk + 11, key);
      rk := rk + 6;
    }
  }

  method Expand256(sb: SBox, a: array<bv32>, ghost key: seq<bv32>)
    requires a.Length == 60 && |key| == 8 && Expanded(sb, key, a, 8)
    modifies a
    ensures Expanded(sb, key, a, 60)
  {
    hide Xor, KeyWord, SubOnly;
    var i, rk := 0, 0;
    while true
      invariant 0 <= i < 7 && rk == 8 * i && Expanded(sb, key, a, rk + 8)
      decreases 7 - i
    {
      ExpandFour(sb, a, 8, rk, i, key);
      i := i + 1;
      if i == 7 { return; }
      KeyMid(sb, key, rk + 12);
      var temp := a[rk + 11];
      a[rk + 12] := Xor(a[rk + 4], SubOnly(sb, temp));
      PlainWord(sb, a, 8, rk + 13, key);
      PlainWord(sb, a, 8, rk + 14, key);
      PlainWord(sb, a, 8, rk + 15, key);
      rk := rk + 8;
    }
  }

  /** AES_set_encrypt_key: -1 for a missing argument, -2 for a key size other than 128, 192 or 256. */
  method SetEncryptKey(sb: SBox, userKey: array?<bv8>, bits: int, key: AesKey?) returns (status: int)
    requires userKey != null && ValidBits(bits) ==> userKey.Length >= bits / 8
    requires key != null ==> key.rdKey.Length == 60
    modifies key, if key == null then {} else {key.rdKey}
    ensures userKey == null || key == null <==> status == -1
    ensures userKey != null && key != null && !ValidBits(bits) <==> status == -2
    ensures status in {0, -1, -2}
    ensures status < 0 && key != null ==> key.rounds == old(key.rounds) && key.rdKey[..] == old(key.rdKey[..])
    ensures status == 0 ==>
      key.rounds == NumRounds(bits) && Schedule(key.rdKey[..], key.rounds) == KeySchedule(sb, userKey[..], bits)
  {
    hide KeyWord, Pack;
    if userKey == null || key == null { return -1; }
    if bits != 128 && bits != 192 && bits != 256 { return -2; }
    var rk := key.rdKey;
    key.rounds := if bits == 128 then 10 else if bits == 192 then 12 else 14;
    ghost var words := KeyWords(userKey[..], bits);
    var j := 0;
    while j < bits / 32
      invariant 0 <= j <= bits / 32 && key.rounds == NumRounds(bits)
      invariant forall k :: 0 <= k < j ==> rk[k] == words[k]
    {
      rk[j] := Pack(Col(userKey[4 * j], userKey[4 * j + 1], userKey[4 * j + 2], userKey[4 * j + 3]));
      j := j + 1;
    }
    forall k | 0 <= k < |words| ensures KeyWord(sb, words, k) == words[k] { KeyWordStart(sb, words, k); }
    if bits == 128 {
      Expand128(sb, rk, words);
    } else if bits == 192 {
      Expand192(sb, rk, words);
    } else {
      Expand256(sb, rk, words);
    }
    assert Expanded(sb, words, rk, 4 * (key.rounds + 1));
    SchedulePrefix(rk[..], ExpandedKey(sb, userKey[..], bits), key.rounds);
    return 0;
  }

  lemma {:induction false} SchedulePrefix(rk: seq<bv32>, words: seq<bv32>, rounds: nat)
    requires |words| == 4 * (rounds + 1) <= |rk| && forall k :: 0 <= k < |words| ==> rk[k] == words[k]
    ensures Schedule(rk, rounds) == Schedule(words, rounds)
  {
    hide Cols;
  }

  lemma {:induction false} KeyWordStart(sb: SBox, words: seq<bv32>, k: nat)
    requires k < |words|
    ensures KeyWord(sb, words, k) == words[k]
  {
    hide Xor, SubWord, RotWord, Pack;
  }

  // ----- AES_set_decrypt_key

  function KeyAt(rk: seq<bv32>, b: nat): Quad
    requires 4 * b + 4 <= |rk|
  {
    RoundKey(rk, 4 * b)
  }

  method SetRound(rk: array<bv32>, i: nat, q: Quad)
    requires 4 * i + 4 <= rk.Length
    modifies rk
    ensures KeyAt(rk[..], i) == q
    ensures forall b :: 0 <= b && 4 * b + 4 <= rk.Length && b != i ==> KeyAt(rk[..], b) == KeyAt(old(rk[..]), b)
  {
    rk[4 * i], rk[4 * i + 1], rk[4 * i + 2], rk[4 * i + 3] := q.w0, q.w1, q.w2, q.w3;
  }

  method SwapRounds(rk: array<bv32>, i: nat, j: nat)
    requires i < j && 4 * j + 4 <= rk.Length
    modifies rk
    ensures KeyAt(rk[..], i) == KeyAt(old(rk[..]), j) && KeyAt(rk[..], j) == KeyAt(old(rk[..]), i)
    ensures forall b :: 0 <= b && 4 * b + 4 <= rk.Length && b != i && b != j ==>
              KeyAt(rk[..], b) == KeyAt(old(rk[..]), b)
  {
    hide KeyAt;
    var x, y := KeyAt(rk[..], i), KeyAt(rk[..], j);
    SetRound(rk, i, y);
    SetRound(rk, j, x);
  }

  /** The first loop of AES_set_decrypt_key: round keys in reverse order. */
  method ReverseRounds(rk: array<bv32>, rounds: nat)
    requires 4 * rounds + 4 <= rk.Length
    modifies rk
    ensures forall b :: 0 <= b <= rounds ==> KeyAt(rk[..], b) == KeyAt(old(rk[..]), rounds - b)
  {
    hide KeyAt;
    var i, j := 0, rounds;
    while i < j
      invariant i + j == rounds && 0 <= i <= j + 1
      invariant forall b :: i <= b <= j ==> KeyAt(rk[..], b) == KeyAt(old(rk[..]), b)
      invariant forall b :: 0 <= b < i || j < b <= rounds ==> KeyAt(rk[..], b) == KeyAt(old(rk[..]), rounds - b)
    {
      SwapRounds(rk, i, j);
      i, j := i + 1, j - 1;
    }
  }

  method TransformRound(sb: SBox, rk: array<bv32>, i: nat)
    requires Inverses(sb) && 4 * i + 4 <= rk.Length
    modifies rk
    ensures Cols(KeyAt(rk[..], i)) == InvMixColumns(Cols(KeyAt(old(rk[..]), i)))
    ensures forall b :: 0 <= b && 4 * b + 4 <= rk.Length && b != i ==> KeyAt(rk[..], b) == KeyAt(old(rk[..]), b)
  {
    hide KeyAt, InvMixWord, Unpack, InvMix;
    var q := KeyAt(rk[..], i);
    InvMixWordRefines(sb, q.w0); InvMixWordRefines(sb, q.w1); InvMixWordRefines(sb, q.w2); InvMixWordRefines(sb, q.w3);
    SetRound(rk, i, Quad(InvMixWord(sb, q.w0), InvMixWord(sb, q.w1), InvMixWord(sb, q.w2), InvMixWord(sb, q.w3)));
  }

  /** The second loop: InvMixColumns on every round key but the first and the last. */
  method TransformRounds(sb: SBox, rk: array<bv32>, rounds: nat)
    requires Inverses(sb) && 4 * rounds + 4 <= rk.Length && rounds >= 1
    modifies rk
    ensures forall b :: 0 < b < rounds ==> Cols(KeyAt(rk[..], b)) == InvMixColumns(Cols(KeyAt(old(rk[..]), b)))
    ensures KeyAt(rk[..], 0) == KeyAt(old(rk[..]), 0) && KeyAt(rk[..], rounds) == KeyAt(old(rk[..]), rounds)
  {
    hide KeyAt, Cols, InvMixColumns;
    var i := 1;
    while i < rounds
      invariant 1 <= i <= rounds
      invariant forall b :: i <= b <= rounds || b == 0 ==> KeyAt(rk[..], b) == KeyAt(old(rk[..]), b)
      invariant forall b :: 0 < b < i ==> Cols(KeyAt(rk[..], b)) == InvMixColumns(Cols(KeyAt(old(rk[..]), b)))
    {
      TransformRound(sb, rk, i);
      i := i + 1;
    }
  }

  /** AES_set_decrypt_key: the decryption schedule of section 5.3.5 of FIPS-197, built in place. */
  method SetDecryptKey(sb: SBox, userKey: array?<bv8>, bits: int, key: AesKey?) returns (status: int)
    requires Inverses(sb)
    requires userKey != null && ValidBits(bits) ==> userKey.Length >= bits / 8
    requires key != null ==> key.rdKey.Length == 60
    modifies key, if key == null then {} else {key.rdKey}
    ensures userKey == null || key == null <==> status == -1
    ensures userKey != null && key != null && !ValidBits(bits) <==> status == -2
    ensures status in {0, -1, -2}
    ensures status < 0 && key != null ==> key.rounds == old(key.rounds) && key.rdKey[..] == old(key.rdKey[..])
    ensures status == 0 ==>
      key.rounds == NumRounds(bits) &&
      Schedule(key.rdKey[..], key.rounds) == DecSchedule(KeySchedule(sb, userKey[..], bits))
  {
    hide KeyAt, Cols, InvMixColumns, KeySchedule, DecSchedule;
    status := SetEncryptKey(sb, userKey, bits, key);
    if status < 0 { return; }
    ghost var was := key.rdKey[..];
    ReverseRounds(key.rdKey, key.rounds);
    ghost var mid := key.rdKey[..];
    TransformRounds(sb, key.rdKey, key.rounds);
    DecScheduleBuilt(was, mid, key.rdKey[..], key.rounds);
    return 0;
  }

  lemma {:induction false} DecScheduleBuilt(was: seq<bv32>, mid: seq<bv32>, now: seq<bv32>, rounds: nat)
    requires rounds >= 1 && 4 * rounds + 4 <= |was| == |mid| == |now|
    requires forall b :: 0 <= b <= rounds ==> KeyAt(mid, b) == KeyAt(was, rounds - b)
    requires forall b :: 0 < b < rounds ==> Cols(KeyAt(now, b)) == InvMixColumns(Cols(KeyAt(mid, b)))
    requires KeyAt(now, 0) == KeyAt(mid, 0) && KeyAt(now, rounds) == KeyAt(mid, rounds)
    ensures Schedule(now, rounds) == DecSchedule(Schedule(was, rounds))
  {
    hide RoundKey, Cols, InvMixColumns;
    var ks := Schedule(was, rounds);
    forall b | 0 <= b <= rounds
      ensures Schedule(now, rounds)[b] == DecSchedule(ks)[b]
    {
      assert KeyAt(mid, b) == KeyAt(was, rounds - b);
    }
  }

  // ----- the round trip

  /** For every key size, key, S-box pair and block: decryption undoes encryption. */
  lemma {:induction false} RoundTrip(sb: SBox, userKey: seq<bv8>, bits: int, block: seq<bv8>)
    requires Inverses(sb) && ValidBits(bits) && |userKey| >= bits / 8 && |block| == 16
    ensures var ks := KeySchedule(sb, userKey, bits);
            DecryptBlock(sb, DecSchedule(ks), EncryptBlock(sb, ks, block)) == block
  {
    hide Cipher, InvCipher, EqInvCipher, DecSchedule;
    var ks := KeySchedule(sb, userKey, bits);
    var x := BlockState(block);
    EquivalentInverse(sb, ks, Cipher(sb, ks, x));
    InvCipherCipher(sb, ks, x);
  }

  /** The same law, run: set both keys, encrypt in place, decrypt in place. */
  method EncryptThenDecrypt(sb: SBox, userKey: array<bv8>, bits: int, buf: array<bv8>)
    requires Inverses(sb) && ValidBits(bits) && userKey.Length >= bits / 8
    requires buf.Length == 16 && buf != userKey
    modifies buf
    ensures buf[..] == old(buf[..])
  {
    hide KeySchedule, EncryptBlock, DecryptBlock, DecSchedule, Schedule;
    var ek := new AesKey();
    var dk := new AesKey();
    var st := SetEncryptKey(sb, userKey, bits, ek);
    st := SetDecryptKey(sb, userKey, bits, dk);
    ghost var block := buf[0..16];
    assert block == buf[..];
    Encrypt(sb, buf, 0, buf, 0, ek);
    Decrypt(sb, buf, 0, buf, 0, dk);
    RoundTrip(sb, userKey[..], bits, block);
    assert buf[..] == buf[0..16];
  }
}
