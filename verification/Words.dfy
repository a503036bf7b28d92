/** The words of the ciphers. */
module Words {

  /** Exclusive or, named so that proofs can hide it. */
  function Xor(a: bv32, b: bv32): bv32 { a ^ b }

  lemma {:induction false} XorAssoc(a: bv32, b: bv32, c: bv32)
    ensures Xor(Xor(a, b), c) == Xor(a, Xor(b, c))
  {}
}
