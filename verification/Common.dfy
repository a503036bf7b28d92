/** Bytes, errno values, and facts about sequences and addresses that several models use. */
module Common {

  type byte = x: int | 0 <= x < 256

  // ----- errno values

  const EIO := 5

  const EAGAIN := 11

  const EACCES := 13

  const EINVAL := 22

  const ENOTSUP := 95

  const ENOMEDIUM := 123

  function Min(a: nat, b: nat): nat { if a < b then a else b }

  ghost predicate NoDup<T>(list: seq<T>) { forall i, j :: 0 <= i < j < |list| ==> list[i] != list[j] }

  /** The list without its i-th element. */
  function Without<T>(list: seq<T>, i: nat): seq<T>
    requires i < |list|
  {
    list[..i] + list[i + 1..]
  }

  /** No call in this span failed. */
  ghost predicate Worked(fails: nat -> bool, from: nat, to: nat) { forall c :: from <= c < to ==> !fails(c) }

  /** There is always an address no object uses yet. */
  lemma {:induction false} Unused(ids: set<nat>) returns (id: nat)
    ensures forall x :: x in ids ==> x < id
  {
    id := 0;
    if ids != {} {
      var x :| x in ids;
      id := Unused(ids - {x});
      assert forall y :: y in ids ==> y == x || y in ids - {x};
      if id <= x { id := x + 1; }
    }
  }

  /** The next k elements after the first i. */
  lemma {:induction false} TakeMore<T>(s: seq<T>, i: nat, k: nat)
    requires i + k <= |s|
    ensures s[..i] + s[i..][..k] == s[..i + k] && s[i..][k..] == s[i + k..] && s[i..][..k] == s[i..i + k]
  {}

  lemma {:induction false} SplitNext<T>(s: seq<T>, i: nat)
    requires i < |s|
    ensures s[..i + 1] == s[..i] + [s[i]] && s == s[..i + 1] + s[i + 1..]
  {}

  lemma {:induction false} InitLast<T>(s: seq<T>)
    requires s != []
    ensures s == s[..|s| - 1] + [s[|s| - 1]]
  {}
}
