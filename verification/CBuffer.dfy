/**
 The circular byte buffer (cbuffer.h:19-45, cbuffer.c:51-180).

 Ring is its meaning: the capacity, the read position and the bytes held, oldest first. The
 class works in place on its array and refines Ring.
 */
module CBuffer {
  import opened Common

  datatype Ring = Ring(size: nat, rpos: nat, bytes: seq<byte>)

  ghost predicate RingOk(r: Ring) { r.rpos < r.size && |r.bytes| <= r.size }

  /** Bytes a write of n takes. */
  function Room(r: Ring, n: nat): nat
    requires |r.bytes| <= r.size
  {
    Min(n, r.size - |r.bytes|)
  }

  function Written(r: Ring, from: seq<byte>): Ring
    requires |r.bytes| <= r.size
  {
    r.(bytes := r.bytes + from[..Room(r, |from|)])
  }

  /** A position past the end of the array wraps once. */
  function Wrap(i: nat, size: nat): nat { if i >= size then i - size else i }

  /** The oldest n bytes are gone; n is cut to what is held. */
  function Stepped(r: Ring, n: nat): Ring {
    var k := Min(n, |r.bytes|);
    r.(rpos := Wrap(r.rpos + k, r.size), bytes := r.bytes[k..])
  }

  /** Bytes that can be read without wrapping. */
  function PeekSize(r: Ring): int {
    if r.rpos + |r.bytes| > r.size then r.size - r.rpos else |r.bytes|
  }

  lemma {:induction false} SteppedOk(r: Ring, n: nat)
    requires RingOk(r)
    ensures RingOk(Stepped(r, n)) && Stepped(r, n).size == r.size
    ensures Stepped(r, n).bytes == r.bytes[Min(n, |r.bytes|)..]
  {}

  /** A non-empty buffer always shows something, and never more than it holds. */
  lemma {:induction false} PeekOk(r: Ring)
    requires RingOk(r)
    ensures 0 <= PeekSize(r) <= |r.bytes| && (PeekSize(r) == 0 <==> r.bytes == [])
  {}

  /** Reading what was just written returns it: the buffer is a first-in first-out queue. */
  lemma {:induction false} WriteThenRead(r: Ring, from: seq<byte>)
    requires RingOk(r)
    ensures RingOk(Written(r, from)) && Stepped(Written(r, from), |r.bytes|).bytes == from[..Room(r, |from|)]
  {}

  /** The count bytes from rpos on, around the end of the array. */
  ghost function HeldIn(data: seq<byte>, rpos: nat, count: nat): (s: seq<byte>)
    requires rpos < |data| && count <= |data|
    ensures |s| == count
  {
    if rpos + count <= |data| then data[rpos..rpos + count] else data[rpos..] + data[..rpos + count - |data|]
  }

  lemma {:induction false} HeldAt(data: seq<byte>, rpos: nat, count: nat, i: nat)
    requires rpos < |data| && i < count <= |data|
    ensures HeldIn(data, rpos, count)[i] == data[Wrap(rpos + i, |data|)]
  {}

  /** Up to the end of the array the oldest bytes are next to each other. */
  lemma {:induction false} HeldFront(data: seq<byte>, rpos: nat, count: nat, k: nat)
    requires rpos < |data| && k <= count <= |data| && rpos + k <= |data|
    ensures data[rpos..rpos + k] == HeldIn(data, rpos, count)[..k]
  {}

  /** Moving the read position drops the oldest bytes. */
  lemma {:induction false} HeldDrop(data: seq<byte>, rpos: nat, count: nat, k: nat)
    requires rpos < |data| && k <= count <= |data|
    ensures Wrap(rpos + k, |data|) < |data|
    ensures HeldIn(data, Wrap(rpos + k, |data|), count - k) == HeldIn(data, rpos, count)[k..]
  {
    hide HeldIn;
    forall i | 0 <= i < count - k
      ensures HeldIn(data, Wrap(rpos + k, |data|), count - k)[i] == HeldIn(data, rpos, count)[k..][i]
    {
      HeldAt(data, Wrap(rpos + k, |data|), count - k, i);
      HeldAt(data, rpos, count, k + i);
    }
  }

  /** Bytes stored after the last one held are held last. */
  lemma {:induction false} HeldAdd(data: seq<byte>, data': seq<byte>, rpos: nat, count: nat, more: seq<byte>)
    requires rpos < |data| == |data'| && count + |more| <= |data| && Wrap(rpos + count, |data|) + |more| <= |data|
    requires var w := Wrap(rpos + count, |data|);
             data' == data[..w] + more + data[w + |more|..]
    ensures HeldIn(data', rpos, count + |more|) == HeldIn(data, rpos, count) + more
  {
    hide HeldIn;
    var w := Wrap(rpos + count, |data|);
    forall i | 0 <= i < count + |more|
      ensures HeldIn(data', rpos, count + |more|)[i] == (HeldIn(data, rpos, count) + more)[i]
    {
      HeldAt(data', rpos, count + |more|, i);
      if i < count { HeldAt(data, rpos, count, i); } else { assert Wrap(rpos + i, |data|) == w + (i - count); }
    }
  }

  class Buffer {
    const buff: array<byte>
    var rpos: nat
    var count: nat

    ghost predicate Valid()
      reads this
    {
      rpos < buff.Length && count <= buff.Length
    }

    /** Where the i-th oldest byte is kept. */
    function Slot(i: nat): int
      reads this
    {
      Wrap(rpos + i, buff.Length)
    }

    ghost function Held(): seq<byte>
      requires Valid()
      reads this, buff
    {
      HeldIn(buff[..], rpos, count)
    }

    ghost function Abs(): Ring
      requires Valid()
      reads this, buff
    {
      Ring(buff.Length, rpos, Held())
    }

    /** cbuffer_reset. */
    constructor (b: array<byte>)
      requires b.Length > 0
      ensures Valid() && buff == b && Abs() == Ring(b.Length, 0, [])
    {
      buff, rpos, count := b, 0, 0;
    }

    /** memcpy into the array. */
    method CopyIn(at: nat, from: seq<byte>)
      requires at + |from| <= buff.Length
      modifies buff
      ensures buff[..] == old(buff[..at]) + from + old(buff[at + |from|..])
    {
      forall i | at <= i < at + |from| { buff[i] := from[i - at]; }
    }

    /** cbuffer_write. */
    method Write(from: seq<byte>) returns (n: nat)
      requires Valid()
      modifies this`count, buff
      ensures Valid() && n == Room(old(Abs()), |from|) && Abs() == Written(old(Abs()), from)
    {
      hide HeldIn;
      var len2 := |from|;
      n := 0;
      while len2 > 0
        invariant Valid() && n + len2 == |from| && len2 >= 0 && count == old(count) + n
        invariant Held() == old(Held()) + from[..n]
        decreases len2
      {
        var avail := buff.Length - count;
        if avail == 0 { break; }
        var more := WriteSpan(from[n..]);
        assert from[..n] + from[n..][..more] == from[..n + more];
        n := n + more;
        len2 := |from| - n;
      }
    }

    /** One pass of the loop of cbuffer_write: up to the end of the array. */
    method WriteSpan(from: seq<byte>) returns (avail: nat)
      requires Valid() && count < buff.Length && |from| > 0
      modifies this`count, buff
      ensures Valid() && 0 < avail <= |from| && count == old(count) + avail && Held() == old(Held()) + from[..avail]
    {
      hide HeldIn;
      avail := buff.Length - count;
      var wpos := rpos + count;
      if wpos >= buff.Length { wpos := wpos - buff.Length; }
      if wpos + avail > buff.Length { avail := buff.Length - wpos; }
      if avail > |from| { avail := |from|; }
      CopyIn(wpos, from[..avail]);
      assert buff[..] == old(buff[..])[..wpos] + from[..avail] + old(buff[..])[wpos + avail..];
      HeldAdd(old(buff[..]), buff[..], rpos, count, from[..avail]);
      count := count + avail;
    }

    /** cbuffer_read. */
    method Read(len: nat) returns (to: seq<byte>)
      requires Valid()
      modifies this`rpos, this`count
      ensures Valid() && to == old(Held())[..Min(len, old(count))] && Abs() == Stepped(old(Abs()), len)
    {
      hide HeldIn;
      var len2 := len;
      to := [];
      while len2 > 0
        invariant Valid() && len2 >= 0 && |to| + len2 == len && |to| + count == old(count)
        invariant to + Held() == old(Held())
        invariant rpos == Wrap(old(rpos) + |to|, buff.Length)
        decreases len2
      {
        if count == 0 { break; }
        var avail, part := ReadSpan(len2);
        to := to + part;
        len2 := len2 - avail;
      }
      assert to == (to + Held())[..|to|] && Held() == (to + Held())[|to|..];
    }

    /** One pass of the loop of cbuffer_read. */
    method ReadSpan(len: nat) returns (avail: nat, part: seq<byte>)
      requires Valid() && count > 0 && len > 0
      modifies this`rpos, this`count
      ensures Valid() && 0 < avail <= len && avail <= old(count) && |part| == avail
      ensures part + Held() == old(Held()) && rpos == Wrap(old(rpos) + avail, buff.Length) &&
              old(rpos) + avail <= buff.Length
    {
      hide HeldIn;
      avail := count;
      if rpos + avail > buff.Length { avail := buff.Length - rpos; }
      if avail > len { avail := len; }
      part := buff[rpos..rpos + avail];
      HeldFront(buff[..], rpos, count, avail);
      assert part == buff[..][rpos..rpos + avail];
      HeldDrop(buff[..], rpos, count, avail);
      ghost var held := Held();
      assert part + held[avail..] == held;
      count := count - avail;
      rpos := rpos + avail;
      if rpos >= buff.Length { rpos := rpos - buff.Length; }
    }

    /** cbuffer_read_peek: the bytes shown are the oldest ones. */
    method ReadPeek() returns (base: nat, avail: nat)
      requires Valid()
      ensures avail == PeekSize(Abs()) && base + avail <= buff.Length && buff[base..base + avail] == Held()[..avail]
    {
      avail := count;
      if rpos + avail > buff.Length { avail := buff.Length - rpos; }
      base := rpos;
      HeldFront(buff[..], rpos, count, avail);
      assert buff[base..base + avail] == buff[..][base..base + avail];
    }

    /** cbuffer_read_step. */
    method ReadStep(n: nat)
      requires Valid()
      modifies this`rpos, this`count
      ensures Valid() && Abs() == Stepped(old(Abs()), n)
    {
      var len := n;
      if len > count { len := count; }
      HeldDrop(buff[..], rpos, count, len);
      hide HeldIn;
      rpos := rpos + len;
      if rpos >= buff.Length { rpos := rpos - buff.Length; }
      count := count - len;
    }

    /** cbuffer_write_peek: a span that write_step can take. */
    method WritePeek() returns (base: nat, avail: nat)
      requires Valid()
      ensures base + avail <= buff.Length && count + avail <= buff.Length && (avail == 0 <==> count == buff.Length)
      ensures avail > 0 ==> base == Slot(count) && Slot(count + avail - 1) == base + avail - 1
    {
      var wpos := rpos + count;
      avail := buff.Length - count;
      if wpos >= buff.Length { wpos := wpos - buff.Length; }
      if wpos + avail > buff.Length { avail := buff.Length - wpos; }
      base := wpos;
    }

    /** cbuffer_write_step, after len bytes were stored in the span write_peek gave: they are held last. */
    method WriteStep(len: nat)
      requires Valid()
      modifies this`count
      ensures Valid() && count == Min(old(count) + len, buff.Length) && Held()[..old(count)] == old(Held())
      ensures forall i :: old(count) <= i < count ==> Held()[i] == buff[Slot(i)]
    {
      ghost var held := Held();
      count := count + len;
      if count > buff.Length { count := buff.Length; }
      hide HeldIn;
      forall i | 0 <= i < count ensures Held()[i] == buff[Slot(i)] && (i < |held| ==> held[i] == buff[Slot(i)]) {
        HeldAt(buff[..], rpos, count, i);
        if i < old(count) { HeldAt(buff[..], rpos, old(count), i); }
      }
    }
  }
}
