/**
 AES_cbc_encrypt of aes.c: cipher block chaining over a buffer of any length, in place or not.

 The mode is stated over an arbitrary block function; the methods use it with AES.
 */
module AesCbc {
  import opened AesField
  import opened AesCipher
  import opened AesCore
  import AesKeys

  type Block = b: seq<bv8> | |b| == 16 witness seq(16, _ => 0)

  /** Bytes taken by n bytes in whole blocks. */
  function RoundUp(n: nat): (m: nat)
    ensures n <= m < n + 16 && (n > 0 ==> m >= 16)
  {
    if n == 0 then 0 else if n < 16 then 16 else 16 + RoundUp(n - 16)
  }

  lemma {:induction false} WholeBlocks(n: nat)
    ensures RoundUp(n) % 16 == 0 && (RoundUp(n) == n <==> n % 16 == 0)
  {
    if n >= 16 { WholeBlocks(n - 16); }
  }

  function XorBlock(a: Block, b: Block): (c: Block)
  {
    seq(16, i requires 0 <= i < 16 => Add(a[i], b[i]))
  }

  /** A short last block behaves as if it were padded with zero bytes. */
  function Padded(p: seq<bv8>): (q: Block)
    requires |p| < 16
  {
    p + seq(16 - |p|, _ => 0)
  }

  function FirstBlock(p: seq<bv8>): Block
    requires |p| > 0
  {
    if |p| < 16 then Padded(p) else p[..16]
  }

  // ----- the mode, as equations (section 6.2 of NIST SP 800-38A)

  function Enc(e: Block -> Block, iv: Block, p: seq<bv8>): (c: seq<bv8>)
    ensures |c| == RoundUp(|p|)
    decreases |p|
  {
    if p == [] then []
    else
      var c0 := e(XorBlock(FirstBlock(p), iv));
      if |p| < 16 then c0 else c0 + Enc(e, c0, p[16..])
  }

  /** The chaining value that encryption leaves. */
  function EncIv(e: Block -> Block, iv: Block, p: seq<bv8>): Block
    decreases |p|
  {
    if p == [] then iv
    else
      var c0 := e(XorBlock(FirstBlock(p), iv));
      if |p| < 16 then c0 else EncIv(e, c0, p[16..])
  }

  function Dec(d: Block -> Block, iv: Block, c: seq<bv8>, len: nat): (p: seq<bv8>)
    requires |c| >= RoundUp(len)
    ensures |p| == len
    decreases len
  {
    if len == 0 then []
    else
      var p0 := XorBlock(d(c[..16]), iv);
      if len < 16 then p0[..len] else p0 + Dec(d, c[..16], c[16..], len - 16)
  }

  /** The chaining value that decryption leaves: after a short tail, the deciphered block itself. */
  function DecIv(d: Block -> Block, iv: Block, c: seq<bv8>, len: nat): Block
    requires |c| >= RoundUp(len)
    decreases len
  {
    if len == 0 then iv
    else if len < 16 then d(c[..16])
    else DecIv(d, c[..16], c[16..], len - 16)
  }

  // ----- theorems

  ghost predicate Inverts(d: Block -> Block, e: Block -> Block) {
    forall b: Block :: d(e(b)) == b
  }

  lemma {:induction false} XorTwice(a: Block, b: Block)
    ensures XorBlock(XorBlock(a, b), b) == a
  {
    forall i | 0 <= i < 16 ensures Add(Add(a[i], b[i]), b[i]) == a[i] {}
  }

  lemma {:induction false} EncHead(e: Block -> Block, iv: Block, p: seq<bv8>)
    requires p != []
    ensures var c0 := e(XorBlock(FirstBlock(p), iv));
            Enc(e, iv, p)[..16] == c0 && (|p| >= 16 ==> Enc(e, iv, p)[16..] == Enc(e, c0, p[16..]))
  {
    hide XorBlock, FirstBlock;
  }

  /** Decrypting a ciphertext with the plaintext's length, whole blocks or not, gives the plaintext. */
  lemma {:induction false} DecEnc(e: Block -> Block, d: Block -> Block, iv: Block, p: seq<bv8>)
    requires Inverts(d, e)
    ensures Dec(d, iv, Enc(e, iv, p), |p|) == p
    decreases |p|
  {
    hide XorBlock;
    if p != [] {
      EncHead(e, iv, p);
      XorTwice(FirstBlock(p), iv);
      if |p| >= 16 {
        DecEnc(e, d, e(XorBlock(p[..16], iv)), p[16..]);
      }
    }
  }

  /** Decrypting the whole rounded ciphertext also recovers the zero padding. */
  lemma {:induction false} DecEncRounded(e: Block -> Block, d: Block -> Block, iv: Block, p: seq<bv8>)
    requires Inverts(d, e)
    ensures RoundUp(RoundUp(|p|)) == RoundUp(|p|)
    ensures Dec(d, iv, Enc(e, iv, p), RoundUp(|p|)) == p + seq(RoundUp(|p|) - |p|, _ => 0)
    decreases |p|
  {
    hide XorBlock;
    if p != [] {
      EncHead(e, iv, p);
      XorTwice(FirstBlock(p), iv);
      if |p| >= 16 {
        DecEncRounded(e, d, e(XorBlock(p[..16], iv)), p[16..]);
      }
    }
  }

  /** On whole blocks both directions leave the same chaining value; on a short tail decryption
      leaves the block that encryption fed to the cipher, not the block it produced. */
  lemma {:induction false} FinalIvs(e: Block -> Block, d: Block -> Block, iv: Block, p: seq<bv8>)
    requires Inverts(d, e)
    ensures var f := DecIv(d, iv, Enc(e, iv, p), |p|);
            EncIv(e, iv, p) == if RoundUp(|p|) == |p| then f else e(f)
    decreases |p|
  {
    hide XorBlock, FirstBlock;
    if p != [] {
      EncHead(e, iv, p);
      if |p| >= 16 {
        FinalIvs(e, d, e(XorBlock(FirstBlock(p), iv)), p[16..]);
      }
    }
  }

  function Zeros(): Block { seq(16, _ => 0) }

  function Ones(): Block { seq(16, _ => 1) }

  /** A block function that is its own inverse. */
  ghost function Flip(): Block -> Block { (b: Block) => XorBlock(b, Ones()) }

  /** Two inverse block functions and a one-byte plaintext after which the two directions leave different chaining
      values. */
  lemma {:induction false} IvsDiffer()
    ensures Inverts(Flip(), Flip())
    ensures EncIv(Flip(), Zeros(), [7]) != DecIv(Flip(), Zeros(), Enc(Flip(), Zeros(), [7]), 1)
  {
    forall b: Block ensures Flip()(Flip()(b)) == b { XorTwice(b, Ones()); }
    FinalIvs(Flip(), Flip(), Zeros(), [7]);
    var f := DecIv(Flip(), Zeros(), Enc(Flip(), Zeros(), [7]), 1);
    assert RoundUp(1) == 16;
    hide Enc, DecIv, EncIv;
    assert Flip()(f)[0] == Add(f[0], 1);
    FlipsByte(f[0]);
  }

  lemma {:induction false} FlipsByte(b: bv8)
    ensures Add(b, 1) != b
  {}

  /** Encrypting at a block boundary in two calls is encrypting once. */
  lemma {:induction false} EncSplit(e: Block -> Block, iv: Block, p: seq<bv8>, q: seq<bv8>)
    requires RoundUp(|p|) == |p|
    ensures Enc(e, iv, p + q) == Enc(e, iv, p) + Enc(e, EncIv(e, iv, p), q)
    ensures EncIv(e, iv, p + q) == EncIv(e, EncIv(e, iv, p), q)
    decreases |p|
  {
    hide XorBlock;
    if p == [] {
      assert p + q == q;
    } else {
      assert (p + q)[..16] == p[..16] && (p + q)[16..] == p[16..] + q;
      EncSplit(e, e(XorBlock(p[..16], iv)), p[16..], q);
    }
  }

  /** Decrypting at a block boundary in two calls is decrypting once. */
  lemma {:induction false} DecSplit(d: Block -> Block, iv: Block, c: seq<bv8>, m: nat, n: nat)
    requires RoundUp(m) == m && |c| >= m + RoundUp(n)
    ensures RoundUp(m + n) == m + RoundUp(n)
    ensures Dec(d, iv, c, m + n) == Dec(d, iv, c, m) + Dec(d, DecIv(d, iv, c, m), c[m..], n)
    ensures DecIv(d, iv, c, m + n) == DecIv(d, DecIv(d, iv, c, m), c[m..], n)
    decreases m
  {
    RoundUpAdds(m, n);
    if m > 0 {
      hide XorBlock, RoundUp, Dec, DecIv;
      DecHead(d, iv, c, m);
      DecHead(d, iv, c, m + n);
      Deeper(c, m);
      DecSplit(d, c[..16], c[16..], m - 16, n);
      Rejoin(XorBlock(d(c[..16]), iv), Dec(d, c[..16], c[16..], m - 16), Dec(d, DecIv(d, iv, c, m), c[m..], n));
    } else {
      assert c[0..] == c;
    }
  }

  lemma {:induction false} Deeper(c: seq<bv8>, m: nat)
    requires 16 <= m <= |c|
    ensures c[16..][m - 16..] == c[m..]
  {}

  lemma {:induction false} Rejoin(a: seq<bv8>, b: seq<bv8>, c: seq<bv8>)
    ensures a + (b + c) == (a + b) + c
  {}

  lemma {:induction false} RoundUpAdds(m: nat, n: nat)
    requires RoundUp(m) == m
    ensures RoundUp(m + n) == m + RoundUp(n) && (m > 0 ==> m >= 16 && RoundUp(m - 16) == m - 16)
  {
    if m > 0 { RoundUpAdds(m - 16, n); }
  }

  lemma {:induction false} DecHead(d: Block -> Block, iv: Block, c: seq<bv8>, len: nat)
    requires len >= 16 && |c| >= RoundUp(len)
    ensures |c[16..]| >= RoundUp(len - 16)
    ensures Dec(d, iv, c, len) == XorBlock(d(c[..16]), iv) + Dec(d, c[..16], c[16..], len - 16)
    ensures DecIv(d, iv, c, len) == DecIv(d, c[..16], c[16..], len - 16)
  {
    hide XorBlock;
  }

  // ----- AES as the block function

  ghost function Encipher(sb: SBox, ks: seq<State>): Block -> Block
    requires |ks| >= 2
  {
    (b: Block) => EncryptBlock(sb, ks, b)
  }

  ghost function Decipher(sb: SBox, dk: seq<State>): Block -> Block
    requires |dk| >= 2
  {
    (b: Block) => DecryptBlock(sb, dk, b)
  }

  /** Schedules set up from the same user key invert each other, so every law above applies. */
  lemma {:induction false} KeysInvert(sb: SBox, userKey: seq<bv8>, bits: int)
    requires Inverses(sb) && AesKeys.ValidBits(bits) && |userKey| >= bits / 8
    ensures var ks := AesKeys.KeySchedule(sb, userKey, bits);
            Inverts(Decipher(sb, DecSchedule(ks)), Encipher(sb, ks))
  {
    hide EncryptBlock, DecryptBlock, DecSchedule, AesKeys.KeySchedule;
    var ks := AesKeys.KeySchedule(sb, userKey, bits);
    forall b: Block
      ensures Decipher(sb, DecSchedule(ks))(Encipher(sb, ks)(b)) == b
    {
      AesKeys.RoundTrip(sb, userKey, bits, b);
    }
  }

  // ----- AES_cbc_encrypt

  ghost predicate SameOutside(now: seq<bv8>, was: seq<bv8>, lo: int, hi: int) {
    |now| == |was| && forall j :: 0 <= j < |was| && !(lo <= j < hi) ==> now[j] == was[j]
  }

  /** tmp[n] = in[n] ^ ivec[n] for n below len, ivec[n] above it. */
  method XorIn(tmp: array<bv8>, inp: array<bv8>, i: nat, len: nat, ivec: array<bv8>)
    requires tmp.Length == 16 && ivec.Length == 16 && 0 < len && i + len <= inp.Length
    requires tmp != inp && tmp != ivec
    modifies tmp
    ensures tmp[..] == XorBlock(FirstBlock(inp[i..i + len]), ivec[..])
  {
    forall x: bv8 ensures Add(0, x) == x {}
    hide Add;
    for n := 0 to 16
      invariant forall j :: 0 <= j < n ==> tmp[j] == if j < len then Add(inp[i + j], ivec[j]) else ivec[j]
    {
      tmp[n] := if n < len then Add(inp[i + n], ivec[n]) else ivec[n];
    }
  }

  /** out[n] = src[n] ^ ivec[n] for n below len; src may be the output block itself. */
  method XorOut(out: array<bv8>, o: nat, len: nat, src: array<bv8>, f: nat, ivec: array<bv8>)
    requires ivec.Length == 16 && len <= 16 && o + len <= out.Length && f + 16 <= src.Length
    requires out != ivec && (out == src ==> o == f)
    modifies out
    ensures out[o..o + len] == XorBlock(old(src[f..f + 16]), ivec[..])[..len]
    ensures SameOutside(out[..], old(out[..]), o, o + len)
  {
    ghost var was := src[f..f + 16];
    ghost var x := XorBlock(was, ivec[..]);
    for n := 0 to len
      invariant forall j :: o <= j < o + n ==> out[j] == x[j - o]
      invariant forall j :: f + n <= j < f + 16 ==> src[j] == was[j - f]
      invariant SameOutside(out[..], old(out[..]), o, o + n)
    {
      assert x[n] == Add(src[f + n], ivec[n]);
      hide Add, XorBlock;
      out[o + n] := Add(src[f + n], ivec[n]);
    }
  }

  method Copy16(dst: array<bv8>, d: nat, src: array<bv8>, s: nat)
    requires d + 16 <= dst.Length && s + 16 <= src.Length && dst != src
    modifies dst
    ensures dst[d..d + 16] == src[s..s + 16] && SameOutside(dst[..], old(dst[..]), d, d + 16)
  {
    for n := 0 to 16
      invariant dst[d..d + n] == src[s..s + n]
      invariant SameOutside(dst[..], old(dst[..]), d, d + n)
    {
      dst[d + n] := src[s + n];
    }
  }

  ghost function KeyEnc(sb: SBox, key: AesKey): Block -> Block
    requires Usable(key)
    reads key, key.rdKey
  {
    Encipher(sb, Schedule(key.rdKey[..], key.rounds))
  }

  ghost function KeyDec(sb: SBox, key: AesKey): Block -> Block
    requires Usable(key)
    reads key, key.rdKey
  {
    Decipher(sb, Schedule(key.rdKey[..], key.rounds))
  }

  /** One block of the encrypting loop; a short last block still writes 16 bytes of output. */
  method EncStep(sb: SBox, inp: array<bv8>, i: nat, len: nat, out: array<bv8>, o: nat, key: AesKey, ivec: array<bv8>)
    requires Usable(key) && ivec.Length == 16 && ivec != inp && ivec != out
    requires 0 < len && i + len <= inp.Length && o + 16 <= out.Length
    modifies out, ivec
    ensures out[o..o + 16] == KeyEnc(sb, key)(XorBlock(FirstBlock(old(inp[i..i + len])), old(ivec[..])))
    ensures ivec[..] == out[o..o + 16] && SameOutside(out[..], old(out[..]), o, o + 16)
  {
    hide XorBlock, FirstBlock, EncryptBlock;
    var tmp := new bv8[16];
    XorIn(tmp, inp, i, len, ivec);
    assert tmp[0..16] == tmp[..];
    Encrypt(sb, tmp, 0, out, o, key);
    Copy16(ivec, 0, out, o);
    assert ivec[..] == ivec[0..16];
  }

  /** One iteration of the decrypting loop. */
  method DecStep(sb: SBox, inp: array<bv8>, i: nat, out: array<bv8>, o: nat, key: AesKey, ivec: array<bv8>)
    requires Usable(key) && ivec.Length == 16 && ivec != inp && ivec != out
    requires i + 16 <= inp.Length && o + 16 <= out.Length
    modifies out, ivec
    ensures out[o..o + 16] == XorBlock(KeyDec(sb, key)(old(inp[i..i + 16])), old(ivec[..]))
    ensures ivec[..] == old(inp[i..i + 16]) && SameOutside(out[..], old(out[..]), o, o + 16)
  {
    hide XorBlock, DecryptBlock;
    var tmp := new bv8[16];
    Copy16(tmp, 0, inp, i);
    Decrypt(sb, inp, i, out, o, key);
    XorOut(out, o, 16, out, o, ivec);
    Copy16(ivec, 0, tmp, 0);
    assert ivec[..] == ivec[0..16];
  }

  /** The short last block of decryption: len bytes of output, and ivec keeps the deciphered block. */
  method DecTail(sb: SBox, inp: array<bv8>, i: nat, len: nat, out: array<bv8>, o: nat, key: AesKey, ivec: array<bv8>)
    requires Usable(key) && ivec.Length == 16 && ivec != inp && ivec != out
    requires 0 < len < 16 && i + 16 <= inp.Length && o + len <= out.Length
    modifies out, ivec
    ensures out[o..o + len] == XorBlock(KeyDec(sb, key)(old(inp[i..i + 16])), old(ivec[..]))[..len]
    ensures ivec[..] == KeyDec(sb, key)(old(inp[i..i + 16]))
    ensures SameOutside(out[..], old(out[..]), o, o + len)
  {
    hide XorBlock, DecryptBlock;
    var tmp := new bv8[16];
    Copy16(tmp, 0, inp, i);
    Decrypt(sb, tmp, 0, tmp, 0, key);
    XorOut(out, o, len, tmp, 0, ivec);
    Copy16(ivec, 0, tmp, 0);
    assert ivec[..] == ivec[0..16];
  }

  /** Progress of encryption: k bytes are done and the rest is to be encrypted under iv. */
  ghost predicate EncDone(e: Block -> Block, iv0: Block, p: seq<bv8>, k: nat, done: seq<bv8>, iv: Block) {
    k <= |p| && |done| == k && k + RoundUp(|p| - k) == RoundUp(|p|) &&
    Enc(e, iv0, p) == done + Enc(e, iv, p[k..]) && EncIv(e, iv0, p) == EncIv(e, iv, p[k..])
  }

  lemma {:induction false} EncAdvance(e: Block -> Block, iv0: Block, p: seq<bv8>, k: nat, done: seq<bv8>, iv: Block)
    requires EncDone(e, iv0, p, k, done, iv) && k + 16 <= |p|
    ensures var c0 := e(XorBlock(FirstBlock(p[k..k + 16]), iv)); EncDone(e, iv0, p, k + 16, done + c0, c0)
  {
    hide XorBlock;
    assert p[k..][16..] == p[k + 16..] && FirstBlock(p[k..]) == FirstBlock(p[k..k + 16]);
  }

  lemma {:induction false} EncStart(e: Block -> Block, iv0: Block, p: seq<bv8>)
    ensures EncDone(e, iv0, p, 0, [], iv0)
  {
    assert p[0..] == p;
  }

  /** What is left after the whole blocks: nothing, or one short block. */
  lemma {:induction false} EncFinish(e: Block -> Block, iv0: Block, p: seq<bv8>, k: nat, done: seq<bv8>, iv: Block)
    requires EncDone(e, iv0, p, k, done, iv) && |p| - k < 16
    ensures k == |p| ==> RoundUp(|p|) == k && Enc(e, iv0, p) == done && EncIv(e, iv0, p) == iv
    ensures k < |p| ==>
              var c0 := e(XorBlock(FirstBlock(p[k..]), iv));
              RoundUp(|p|) == k + 16 && Enc(e, iv0, p) == done + c0 && EncIv(e, iv0, p) == c0
  {
    hide XorBlock, FirstBlock;
  }

  /** One iteration, with the progress it makes. */
  method EncIter(sb: SBox, inp: array<bv8>, i: nat, out: array<bv8>, o: nat, length: nat, key: AesKey, ivec: array<bv8>,
                 k: nat, ghost iv0: Block, ghost p: seq<bv8>)
    requires Usable(key) && ivec.Length == 16 && ivec != inp && ivec != out
    requires i + length <= inp.Length && o + RoundUp(length) <= out.Length && (inp == out ==> i == o)
    requires k + 16 <= length && |p| == length && inp[i + k..i + length] == p[k..]
    requires EncDone(KeyEnc(sb, key), iv0, p, k, out[o..o + k], ivec[..])
    modifies out, ivec
    ensures inp[i + k + 16..i + length] == p[k + 16..] && SameOutside(out[..], old(out[..]), o + k, o + k + 16)
    ensures EncDone(KeyEnc(sb, key), iv0, p, k + 16, out[o..o + k + 16], ivec[..])
  {
    hide XorBlock, FirstBlock, KeyEnc, EncDone, RoundUp, SameOutside;
    ghost var was, block, out0 := out[o..o + k], inp[i + k..i + k + 16], out[..];
    EncAdvance(KeyEnc(sb, key), iv0, p, k, was, ivec[..]);
    assert block == inp[i + k..i + length][..16] == p[k..k + 16];
    assert inp[i + k + 16..i + length] == inp[i + k..i + length][16..] == p[k + 16..];
    EncStep(sb, inp, i + k, 16, out, o + k, key, ivec);
    OutsideKept(out[..], out0, o + k, o + k + 16, o, o + k);
    if inp == out { OutsideKept(out[..], out0, o + k, o + k + 16, i + k + 16, i + length); }
    Joined(out[..], o, o + k, o + k + 16);
  }

  /** A part of the buffer outside a written range is as it was. */
  lemma {:induction false} OutsideKept(s: seq<bv8>, was: seq<bv8>, from: nat, to: nat, a: nat, b: nat)
    requires SameOutside(s, was, from, to) && a <= b <= |was| && (b <= from || to <= a)
    ensures |s| == |was| && s[a..b] == was[a..b]
  {}

  lemma {:induction false} Joined(s: seq<bv8>, a: nat, b: nat, c: nat)
    requires a <= b <= c <= |s|
    ensures s[a..c] == s[a..b] + s[b..c]
  {}

  /** The encrypting loop over whole blocks. */
  method EncBlocks(sb: SBox, inp: array<bv8>, i: nat, out: array<bv8>, o: nat, length: nat, key: AesKey,
                   ivec: array<bv8>)
    returns (k: nat)
    requires Usable(key) && ivec.Length == 16 && ivec != inp && ivec != out
    requires i + length <= inp.Length && o + RoundUp(length) <= out.Length && (inp == out ==> i == o)
    modifies out, ivec
    ensures k <= length < k + 16 && SameOutside(out[..], old(out[..]), o, o + k)
    ensures inp[i + k..i + length] == old(inp[i + k..i + length])
    ensures EncDone(KeyEnc(sb, key), old(ivec[..]), old(inp[i..i + length]), k, out[o..o + k], ivec[..])
  {
    hide KeyEnc, EncDone, RoundUp;
    ghost var e, p, iv0 := KeyEnc(sb, key), inp[i..i + length], ivec[..];
    k := 0;
    EncStart(e, iv0, p);
    assert out[o..o + k] == [];
    while length - k >= 16
      invariant k <= length && inp[i + k..i + length] == p[k..]
      invariant SameOutside(out[..], old(out[..]), o, o + k)
      invariant EncDone(e, iv0, p, k, out[o..o + k], ivec[..])
    {
      EncIter(sb, inp, i, out, o, length, key, ivec, k, iv0, p);
      k := k + 16;
    }
  }

  method CbcEncrypt(sb: SBox, inp: array<bv8>, i: nat, out: array<bv8>, o: nat, length: nat, key: AesKey,
                    ivec: array<bv8>)
    requires Usable(key) && ivec.Length == 16 && ivec != inp && ivec != out
    requires i + length <= inp.Length && o + RoundUp(length) <= out.Length && (inp == out ==> i == o)
    modifies out, ivec
    ensures out[o..o + RoundUp(length)] == Enc(KeyEnc(sb, key), old(ivec[..]), old(inp[i..i + length]))
    ensures ivec[..] == EncIv(KeyEnc(sb, key), old(ivec[..]), old(inp[i..i + length]))
    ensures SameOutside(out[..], old(out[..]), o, o + RoundUp(length))
  {
    hide XorBlock, FirstBlock, KeyEnc, EncDone, Enc, EncIv, RoundUp;
    ghost var e, p, iv0 := KeyEnc(sb, key), inp[i..i + length], ivec[..];
    var k := EncBlocks(sb, inp, i, out, o, length, key, ivec);
    ghost var was := out[o..o + k];
    EncFinish(e, iv0, p, k, was, ivec[..]);
    if length - k > 0 {
      assert inp[i + k..i + length] == p[k..];
      EncStep(sb, inp, i + k, length - k, out, o + k, key, ivec);
      assert out[o..o + k + 16] == was + ivec[..];
    }
  }

  // ----- the decrypting direction

  ghost predicate DecDone(d: Block -> Block, iv0: Block, c: seq<bv8>, len: nat, k: nat, done: seq<bv8>, iv: Block) {
    |c| == RoundUp(len) && k <= len && |done| == k && k + RoundUp(len - k) == |c| &&
    Dec(d, iv0, c, len) == done + Dec(d, iv, c[k..], len - k) && DecIv(d, iv0, c, len) == DecIv(d, iv, c[k..], len - k)
  }

  lemma {:induction false} DecStart(d: Block -> Block, iv0: Block, c: seq<bv8>, len: nat)
    requires |c| == RoundUp(len)
    ensures DecDone(d, iv0, c, len, 0, [], iv0)
  {
    assert c[0..] == c;
  }

  lemma {:induction false} DecAdvance(d: Block -> Block, iv0: Block, c: seq<bv8>, len: nat, k: nat, done: seq<bv8>,
                                      iv: Block)
    requires DecDone(d, iv0, c, len, k, done, iv) && k + 16 <= len
    ensures DecDone(d, iv0, c, len, k + 16, done + XorBlock(d(c[k..k + 16]), iv), c[k..k + 16])
  {
    hide XorBlock;
    assert c[k..][16..] == c[k + 16..] && c[k..][..16] == c[k..k + 16];
  }

  lemma {:induction false} DecFinish(d: Block -> Block, iv0: Block, c: seq<bv8>, len: nat, k: nat, done: seq<bv8>,
                                     iv: Block)
    requires DecDone(d, iv0, c, len, k, done, iv) && len - k < 16
    ensures k == len ==> Dec(d, iv0, c, len) == done && DecIv(d, iv0, c, len) == iv
    ensures k < len ==> |c| == k + 16 && Dec(d, iv0, c, len) == done + XorBlock(d(c[k..]), iv)[..len - k] &&
                        DecIv(d, iv0, c, len) == d(c[k..])
  {
    hide XorBlock;
    if k < len { assert c[k..][..16] == c[k..]; }
  }

  /** One iteration, with the progress it makes. */
  method DecIter(sb: SBox, inp: array<bv8>, i: nat, out: array<bv8>, o: nat, length: nat, key: AesKey, ivec: array<bv8>,
                 k: nat, ghost iv0: Block, ghost c: seq<bv8>)
    requires Usable(key) && ivec.Length == 16 && ivec != inp && ivec != out
    requires i + RoundUp(length) <= inp.Length && o + length <= out.Length && (inp == out ==> i == o)
    requires k + 16 <= length && |c| == RoundUp(length) && inp[i + k..i + RoundUp(length)] == c[k..]
    requires DecDone(KeyDec(sb, key), iv0, c, length, k, out[o..o + k], ivec[..])
    modifies out, ivec
    ensures inp[i + k + 16..i + RoundUp(length)] == c[k + 16..] && SameOutside(out[..], old(out[..]), o + k, o + k + 16)
    ensures DecDone(KeyDec(sb, key), iv0, c, length, k + 16, out[o..o + k + 16], ivec[..])
  {
    hide XorBlock, KeyDec, DecDone, RoundUp, SameOutside;
    ghost var was, block, out0 := out[o..o + k], inp[i + k..i + k + 16], out[..];
    DecAdvance(KeyDec(sb, key), iv0, c, length, k, was, ivec[..]);
    assert block == inp[i + k..i + RoundUp(length)][..16] == c[k..k + 16];
    assert inp[i + k + 16..i + RoundUp(length)] == inp[i + k..i + RoundUp(length)][16..] == c[k + 16..];
    ghost var p0 := XorBlock(KeyDec(sb, key)(c[k..k + 16]), ivec[..]);
    DecStep(sb, inp, i + k, out, o + k, key, ivec);
    OutsideKept(out[..], out0, o + k, o + k + 16, o, o + k);
    if inp == out { OutsideKept(out[..], out0, o + k, o + k + 16, i + k + 16, i + RoundUp(length)); }
    Joined(out[..], o, o + k, o + k + 16);
    assert out[o..o + k + 16] == was + p0;
  }

  /** The decrypting loop over whole blocks. */
  method DecBlocks(sb: SBox, inp: array<bv8>, i: nat, out: array<bv8>, o: nat, length: nat, key: AesKey,
                   ivec: array<bv8>)
    returns (k: nat)
    requires Usable(key) && ivec.Length == 16 && ivec != inp && ivec != out
    requires i + RoundUp(length) <= inp.Length && o + length <= out.Length && (inp == out ==> i == o)
    modifies out, ivec
    ensures k <= length < k + 16 && SameOutside(out[..], old(out[..]), o, o + k)
    ensures inp[i + k..i + RoundUp(length)] == old(inp[i + k..i + RoundUp(length)])
    ensures DecDone(KeyDec(sb, key), old(ivec[..]), old(inp[i..i + RoundUp(length)]), length, k, out[o..o + k],
                    ivec[..])
  {
    hide KeyDec, DecDone, RoundUp;
    ghost var d, c, iv0 := KeyDec(sb, key), inp[i..i + RoundUp(length)], ivec[..];
    k := 0;
    DecStart(d, iv0, c, length);
    assert out[o..o + k] == [];
    while length - k >= 16
      invariant k <= length && inp[i + k..i + RoundUp(length)] == c[k..]
      invariant SameOutside(out[..], old(out[..]), o, o + k)
      invariant DecDone(d, iv0, c, length, k, out[o..o + k], ivec[..])
    {
      DecIter(sb, inp, i, out, o, length, key, ivec, k, iv0, c);
      k := k + 16;
    }
  }

  method CbcDecrypt(sb: SBox, inp: array<bv8>, i: nat, out: array<bv8>, o: nat, length: nat, key: AesKey,
                    ivec: array<bv8>)
    requires Usable(key) && ivec.Length == 16 && ivec != inp && ivec != out
    requires i + RoundUp(length) <= inp.Length && o + length <= out.Length && (inp == out ==> i == o)
    modifies out, ivec
    ensures out[o..o + length] == Dec(KeyDec(sb, key), old(ivec[..]), old(inp[i..i + RoundUp(length)]), length)
    ensures ivec[..] == DecIv(KeyDec(sb, key), old(ivec[..]), old(inp[i..i + RoundUp(length)]), length)
    ensures SameOutside(out[..], old(out[..]), o, o + length)
  {
    hide XorBlock, KeyDec, DecDone, Dec, DecIv, RoundUp;
    ghost var d, c, iv0 := KeyDec(sb, key), inp[i..i + RoundUp(length)], ivec[..];
    var k := DecBlocks(sb, inp, i, out, o, length, key, ivec);
    ghost var was := out[o..o + k];
    DecFinish(d, iv0, c, length, k, was, ivec[..]);
    if length - k > 0 {
      assert inp[i + k..i + k + 16] == c[k..];
      ghost var p0 := XorBlock(d(c[k..]), ivec[..]);
      DecTail(sb, inp, i + k, length - k, out, o + k, key, ivec);
      assert out[o..o + length] == was + p0[..length - k];
    }
  }

  /** Both directions on one buffer, in place: what was there comes back, for every length. */
  method EncryptThenDecrypt(sb: SBox, userKey: array<bv8>, bits: int, buf: array<bv8>, length: nat, iv: Block)
    requires Inverses(sb) && AesKeys.ValidBits(bits) && userKey.Length >= bits / 8 && userKey != buf
    requires RoundUp(length) <= buf.Length
    modifies buf
    ensures buf[..length] == old(buf[..length])
  {
    hide Enc, EncIv, Dec, DecIv, KeyEnc, KeyDec, RoundUp, Inverts;
    var ek, dk := SetKeys(sb, userKey, bits);
    ghost var e, d, p := KeyEnc(sb, ek), KeyDec(sb, dk), buf[..length];
    var ivec := new bv8[16](j requires 0 <= j < 16 => iv[j]);
    var ivec2 := new bv8[16](j requires 0 <= j < 16 => iv[j]);
    assert ivec[..] == iv && ivec2[..] == iv && p == buf[0..0 + length];
    CbcEncrypt(sb, buf, 0, buf, 0, length, ek, ivec);
    CbcDecrypt(sb, buf, 0, buf, 0, length, dk, ivec2);
    DecEnc(e, d, iv, p);
    assert buf[..length] == buf[0..0 + length];
  }

  /** Both schedules of one user key. */
  method SetKeys(sb: SBox, userKey: array<bv8>, bits: int) returns (ek: AesKey, dk: AesKey)
    requires Inverses(sb) && AesKeys.ValidBits(bits) && userKey.Length >= bits / 8
    ensures fresh(ek) && fresh(ek.rdKey) && fresh(dk) && fresh(dk.rdKey) && Usable(ek) && Usable(dk)
    ensures Inverts(KeyDec(sb, dk), KeyEnc(sb, ek))
  {
    hide KeyEnc, KeyDec, AesKeys.KeySchedule, DecSchedule, Schedule, Inverts;
    ek := new AesKey();
    dk := new AesKey();
    var st := AesKeys.SetEncryptKey(sb, userKey, bits, ek);
    st := AesKeys.SetDecryptKey(sb, userKey, bits, dk);
    KeysInvertRun(sb, userKey[..], bits, ek, dk);
  }

  lemma {:induction false} KeysInvertRun(sb: SBox, userKey: seq<bv8>, bits: int, ek: AesKey, dk: AesKey)
    requires Inverses(sb) && AesKeys.ValidBits(bits) && |userKey| >= bits / 8 && Usable(ek) && Usable(dk)
    requires Schedule(ek.rdKey[..], ek.rounds) == AesKeys.KeySchedule(sb, userKey, bits)
    requires Schedule(dk.rdKey[..], dk.rounds) == DecSchedule(AesKeys.KeySchedule(sb, userKey, bits))
    ensures Inverts(KeyDec(sb, dk), KeyEnc(sb, ek))
  {
    hide Schedule, AesKeys.KeySchedule, DecSchedule, Encipher, Decipher;
    KeysInvert(sb, userKey, bits);
  }
}
