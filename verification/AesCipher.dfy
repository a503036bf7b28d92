/**
 AES as FIPS-197 writes it: the cipher, the straightforward inverse cipher, the equivalent
 inverse cipher and the key expansion, with the theorems that relate them.
 */
module AesCipher {
  import opened Words
  import opened AesField

  /** The 4x4 byte state, one column per field. */
  datatype State = State(c0: Col, c1: Col, c2: Col, c3: Col)

  function AddKey(x: State, k: State): State {
    State(AddCol(x.c0, k.c0), AddCol(x.c1, k.c1), AddCol(x.c2, k.c2), AddCol(x.c3, k.c3))
  }

  function MapCol(f: bv8 -> bv8, c: Col): Col { Col(f(c.r0), f(c.r1), f(c.r2), f(c.r3)) }

  function SubBytes(f: bv8 -> bv8, x: State): State {
    State(MapCol(f, x.c0), MapCol(f, x.c1), MapCol(f, x.c2), MapCol(f, x.c3))
  }

  function ShiftRows(x: State): State {
    State(Col(x.c0.r0, x.c1.r1, x.c2.r2, x.c3.r3), Col(x.c1.r0, x.c2.r1, x.c3.r2, x.c0.r3),
          Col(x.c2.r0, x.c3.r1, x.c0.r2, x.c1.r3), Col(x.c3.r0, x.c0.r1, x.c1.r2, x.c2.r3))
  }

  function InvShiftRows(x: State): State {
    State(Col(x.c0.r0, x.c3.r1, x.c2.r2, x.c1.r3), Col(x.c1.r0, x.c0.r1, x.c3.r2, x.c2.r3),
          Col(x.c2.r0, x.c1.r1, x.c0.r2, x.c3.r3), Col(x.c3.r0, x.c2.r1, x.c1.r2, x.c0.r3))
  }

  function MixColumns(x: State): State { State(Mix(x.c0), Mix(x.c1), Mix(x.c2), Mix(x.c3)) }

  function InvMixColumns(x: State): State { State(InvMix(x.c0), InvMix(x.c1), InvMix(x.c2), InvMix(x.c3)) }

  /** The state after the initial key addition and n full rounds (section 5.1 of FIPS-197). */
  function Rounds(sb: SBox, ks: seq<State>, x: State, n: nat): State
    requires n < |ks|
  {
    if n == 0 then AddKey(x, ks[0])
    else AddKey(MixColumns(ShiftRows(SubBytes(sb.s, Rounds(sb, ks, x, n - 1)))), ks[n])
  }

  function Cipher(sb: SBox, ks: seq<State>, x: State): State
    requires |ks| >= 2
  {
    AddKey(ShiftRows(SubBytes(sb.s, Rounds(sb, ks, x, |ks| - 2))), ks[|ks| - 1])
  }

  /** The inverse cipher of section 5.3 of FIPS-197 after n rounds: round keys read backwards. */
  function InvRounds(sb: SBox, ks: seq<State>, y: State, n: nat): State
    requires n < |ks|
  {
    if n == 0 then AddKey(y, ks[|ks| - 1])
    else InvMixColumns(AddKey(SubBytes(sb.si, InvShiftRows(InvRounds(sb, ks, y, n - 1))), ks[|ks| - 1 - n]))
  }

  function InvCipher(sb: SBox, ks: seq<State>, y: State): State
    requires |ks| >= 2
  {
    AddKey(SubBytes(sb.si, InvShiftRows(InvRounds(sb, ks, y, |ks| - 2))), ks[0])
  }

  /** The equivalent inverse cipher of section 5.3.5 of FIPS-197 after n rounds. */
  function EqInvRounds(sb: SBox, dk: seq<State>, y: State, n: nat): State
    requires n < |dk|
  {
    if n == 0 then AddKey(y, dk[0])
    else AddKey(InvMixColumns(InvShiftRows(SubBytes(sb.si, EqInvRounds(sb, dk, y, n - 1)))), dk[n])
  }

  function EqInvCipher(sb: SBox, dk: seq<State>, y: State): State
    requires |dk| >= 2
  {
    AddKey(InvShiftRows(SubBytes(sb.si, EqInvRounds(sb, dk, y, |dk| - 2))), dk[|dk| - 1])
  }

  /** Round keys reversed, all but the outer two passed through InvMixColumns. */
  function DecSchedule(ks: seq<State>): (dk: seq<State>)
    ensures |dk| == |ks|
  {
    seq(|ks|, i requires 0 <= i < |ks| =>
      if i == 0 || i == |ks| - 1 then ks[|ks| - 1 - i] else InvMixColumns(ks[|ks| - 1 - i]))
  }

  // ----- theorems

  lemma {:induction false} AddColTwice(x: Col, k: Col)
    ensures AddCol(AddCol(x, k), k) == x
  {}

  lemma {:induction false} AddKeyTwice(x: State, k: State)
    ensures AddKey(AddKey(x, k), k) == x
  {
    hide AddCol;
    AddColTwice(x.c0, k.c0); AddColTwice(x.c1, k.c1); AddColTwice(x.c2, k.c2); AddColTwice(x.c3, k.c3);
  }

  lemma {:induction false} InvSubstitutes(sb: SBox, x: State)
    requires Inverses(sb)
    ensures SubBytes(sb.si, InvShiftRows(ShiftRows(SubBytes(sb.s, x)))) == x
  {
    assert InvShiftRows(ShiftRows(SubBytes(sb.s, x))) == SubBytes(sb.s, x);
  }

  lemma {:induction false} InvMixColumnsMix(x: State)
    ensures InvMixColumns(MixColumns(x)) == x
  {
    hide Mix, InvMix;
    InvMixMix(x.c0); InvMixMix(x.c1); InvMixMix(x.c2); InvMixMix(x.c3);
  }

  lemma {:induction false} InvMixColumnsAdd(x: State, k: State)
    ensures InvMixColumns(AddKey(x, k)) == AddKey(InvMixColumns(x), InvMixColumns(k))
  {
    hide InvMix, AddCol;
    InvMixAdd(x.c0, k.c0); InvMixAdd(x.c1, k.c1); InvMixAdd(x.c2, k.c2); InvMixAdd(x.c3, k.c3);
  }

  /** After n inverse rounds the state is what the cipher had just before its n-th last key mixing. */
  lemma {:induction false} InvRoundsUnwind(sb: SBox, ks: seq<State>, x: State, n: nat)
    requires Inverses(sb) && n + 2 <= |ks|
    ensures InvRounds(sb, ks, Cipher(sb, ks, x), n)
         == ShiftRows(SubBytes(sb.s, Rounds(sb, ks, x, |ks| - 2 - n)))
  {
    hide AddKey, SubBytes, ShiftRows, InvShiftRows, MixColumns, InvMixColumns;
    if n == 0 {
      AddKeyTwice(ShiftRows(SubBytes(sb.s, Rounds(sb, ks, x, |ks| - 2))), ks[|ks| - 1]);
    } else {
      var m := |ks| - 1 - n;
      InvRoundsUnwind(sb, ks, x, n - 1);
      InvSubstitutes(sb, Rounds(sb, ks, x, m));
      var z := ShiftRows(SubBytes(sb.s, Rounds(sb, ks, x, m - 1)));
      AddKeyTwice(MixColumns(z), ks[m]);
      InvMixColumnsMix(z);
    }
  }

  /** The inverse cipher undoes the cipher, for every S-box, every schedule and every number of rounds. */
  lemma {:induction false} InvCipherCipher(sb: SBox, ks: seq<State>, x: State)
    requires Inverses(sb) && |ks| >= 2
    ensures InvCipher(sb, ks, Cipher(sb, ks, x)) == x
  {
    hide AddKey, SubBytes, ShiftRows, InvShiftRows;
    InvRoundsUnwind(sb, ks, x, |ks| - 2);
    InvSubstitutes(sb, Rounds(sb, ks, x, 0));
    AddKeyTwice(x, ks[0]);
  }

  lemma {:induction false} ShiftSubCommute(f: bv8 -> bv8, x: State)
    ensures InvShiftRows(SubBytes(f, x)) == SubBytes(f, InvShiftRows(x))
  {}

  lemma {:induction false} EqInvRoundsAgree(sb: SBox, ks: seq<State>, y: State, n: nat)
    requires n + 2 <= |ks|
    ensures EqInvRounds(sb, DecSchedule(ks), y, n) == InvRounds(sb, ks, y, n)
  {
    hide AddKey, SubBytes, InvShiftRows, InvMixColumns;
    if n > 0 {
      EqInvRoundsAgree(sb, ks, y, n - 1);
      var z := InvRounds(sb, ks, y, n - 1);
      ShiftSubCommute(sb.si, z);
      InvMixColumnsAdd(SubBytes(sb.si, InvShiftRows(z)), ks[|ks| - 1 - n]);
    }
  }

  /** The equivalent inverse cipher under the transformed schedule is the inverse cipher. */
  lemma {:induction false} EquivalentInverse(sb: SBox, ks: seq<State>, y: State)
    requires |ks| >= 2
    ensures EqInvCipher(sb, DecSchedule(ks), y) == InvCipher(sb, ks, y)
  {
    hide AddKey, SubBytes, InvShiftRows, InvMixColumns;
    EqInvRoundsAgree(sb, ks, y, |ks| - 2);
    ShiftSubCommute(sb.si, InvRounds(sb, ks, y, |ks| - 2));
  }

  // ----- key expansion (section 5.2 of FIPS-197)

  function SubWord(sb: SBox, w: bv32): bv32 { Pack(MapCol(sb.s, Unpack(w))) }

  function RotWord(w: bv32): bv32 { Pack(RotCol(Unpack(w))) }

  /** The i-th round constant is x^(i-1) in the leading byte. */
  function RconByte(i: nat): bv8
    requires i >= 1
  {
    if i == 1 then 1 else Xtime(RconByte(i - 1))
  }

  function KeyWord(sb: SBox, key: seq<bv32>, i: nat): bv32
    requires |key| > 0
    decreases i
  {
    var nk := |key|;
    if i < nk then key[i]
    else
      var temp := KeyWord(sb, key, i - 1);
      Xor(KeyWord(sb, key, i - nk),
          if i % nk == 0 then Xor(SubWord(sb, RotWord(temp)), Pack(Col(RconByte(i / nk), 0, 0, 0)))
          else if nk > 6 && i % nk == 4 then SubWord(sb, temp)
          else temp)
  }
}
