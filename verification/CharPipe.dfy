/**
 Character pipes and character buffers (charpipe.c:35-200, charpipe.c:256-383): byte streams
 kept in chains of circular buffers that are drawn from one free list.

 All the chains share one pool. Chain h belongs to a pipe half or a character buffer, and the
 last list of the pool is the free list. A peer's can-read answers and an endpoint's write
 results are inputs. Each buffer is a Ring, which the circular buffer class refines.
 */
module CharPipe {
  import opened Common
  import opened CBuffer

  const BipSize := 512

  datatype Ptr = Null | To(id: nat)

  datatype Bip = Bip(next: Ptr, ring: Ring)

  const EmptyRing := Ring(BipSize, 0, [])

  type Bips = map<nat, Bip>

  // ----- lists of buffers

  function At(list: seq<nat>, i: nat): Ptr
    requires i <= |list|
  {
    if i < |list| then To(list[i]) else Null
  }

  function LastOf(list: seq<nat>): Ptr { if list == [] then Null else To(list[|list| - 1]) }

  ghost predicate NextAt(bips: Bips, list: seq<nat>, i: nat)
    requires i < |list|
  {
    list[i] in bips && bips[list[i]].next == At(list, i + 1)
  }

  ghost predicate Spelled(bips: Bips, list: seq<nat>, head: Ptr) {
    head == At(list, 0) && forall i :: 0 <= i < |list| ==> NextAt(bips, list, i)
  }

  /** The list holds exactly the buffers owned by x, each once. */
  ghost predicate Owned(owner: map<nat, nat>, list: seq<nat>, x: nat) {
    NoDup(list) && forall id :: id in list <==> id in owner && owner[id] == x
  }

  ghost predicate ListsOk(bips: Bips, heads: seq<Ptr>, owner: map<nat, nat>, lists: seq<seq<nat>>) {
    && |heads| == |lists|
    && forall x :: 0 <= x < |lists| ==> Spelled(bips, lists[x], heads[x]) && Owned(owner, lists[x], x)
  }

  /** Every buffer has one owner, a list, except those just taken off a list. */
  ghost predicate KeysOk(bips: Bips, owner: map<nat, nat>, n: nat, limbo: set<nat>) {
    && (forall id :: id in bips <==> id in owner || id in limbo)
    && (forall id :: id in limbo ==> id !in owner)
    && (forall id :: id in owner ==> owner[id] < n)
  }

  ghost predicate RingsOk(bips: Bips) {
    forall id :: id in bips ==> RingOk(bips[id].ring) && bips[id].ring.size == BipSize
  }

  ghost predicate PoolOk(bips: Bips, heads: seq<Ptr>, owner: map<nat, nat>, lists: seq<seq<nat>>, limbo: set<nat>) {
    ListsOk(bips, heads, owner, lists) && KeysOk(bips, owner, |lists|, limbo) && RingsOk(bips)
  }

  lemma {:induction false} SpelledFrame(bips: Bips, bips': Bips, list: seq<nat>, head: Ptr)
    requires Spelled(bips, list, head)
    requires forall id :: id in list ==> id in bips' && (id in bips ==> bips'[id].next == bips[id].next)
    ensures Spelled(bips', list, head)
  {
    forall i | 0 <= i < |list| ensures NextAt(bips', list, i) {
      assert NextAt(bips, list, i) && list[i] in list;
    }
  }

  lemma {:induction false} OwnedFrame(owner: map<nat, nat>, owner': map<nat, nat>, list: seq<nat>, x: nat)
    requires Owned(owner, list, x)
    requires forall id :: (id in owner && owner[id] == x) <==> (id in owner' && owner'[id] == x)
    ensures Owned(owner', list, x)
  {}

  // ----- taking the first buffer off a list

  lemma {:induction false} TakeOk(bips: Bips, heads: seq<Ptr>, owner: map<nat, nat>, lists: seq<seq<nat>>, x: nat)
    requires PoolOk(bips, heads, owner, lists, {}) && x < |lists| && lists[x] != []
    ensures var id := lists[x][0];
            id in bips && id in owner && owner[id] == x && heads[x] == To(id) && bips[id].next == At(lists[x], 1) &&
            PoolOk(bips, heads[x := bips[id].next], owner - {id}, lists[x := lists[x][1..]], {id})
  {
    var id := lists[x][0];
    assert Spelled(bips, lists[x], heads[x]) && Owned(owner, lists[x], x);
    assert NextAt(bips, lists[x], 0) && id in lists[x];
    TakeLists(bips, heads, owner, lists, x);
    hide ListsOk, RingsOk;
  }

  lemma {:induction false} TakeLists(bips: Bips, heads: seq<Ptr>, owner: map<nat, nat>, lists: seq<seq<nat>>, x: nat)
    requires ListsOk(bips, heads, owner, lists) && x < |lists| && lists[x] != [] && lists[x][0] in bips
    ensures var id := lists[x][0];
            ListsOk(bips, heads[x := bips[id].next], owner - {id}, lists[x := lists[x][1..]])
  {
    var id := lists[x][0];
    var (heads', lists', owner') := (heads[x := bips[id].next], lists[x := lists[x][1..]], owner - {id});
    assert Spelled(bips, lists[x], heads[x]) && Owned(owner, lists[x], x);
    TakeOne(bips, owner, lists[x], heads[x], x);
    assert id in lists[x];
    hide Spelled;
    forall y | 0 <= y < |lists'| ensures Spelled(bips, lists'[y], heads'[y]) && Owned(owner', lists'[y], y) {
      assert Spelled(bips, lists[y], heads[y]) && Owned(owner, lists[y], y);
      if y != x { OwnedFrame(owner, owner', lists[y], y); }
    }
  }

  lemma {:induction false} TakeOne(bips: Bips, owner: map<nat, nat>, list: seq<nat>, head: Ptr, x: nat)
    requires Spelled(bips, list, head) && Owned(owner, list, x) && list != [] && list[0] in bips
    ensures Spelled(bips, list[1..], bips[list[0]].next) && Owned(owner - {list[0]}, list[1..], x)
  {
    var rest := list[1..];
    assert NextAt(bips, list, 0);
    forall i | 0 <= i < |rest| ensures NextAt(bips, rest, i) { assert NextAt(bips, list, i + 1); }
    assert list == [list[0]] + rest;
    forall i | 0 <= i < |rest| ensures rest[i] != list[0] { assert rest[i] == list[i + 1]; }
  }

  // ----- putting a buffer at the front of a list

  lemma {:induction false} PushOk(bips: Bips, heads: seq<Ptr>, owner: map<nat, nat>, lists: seq<seq<nat>>, y: nat,
                                  id: nat)
    requires PoolOk(bips, heads, owner, lists, {id}) && y < |lists|
    ensures id in bips &&
            PoolOk(bips[id := bips[id].(next := heads[y])], heads[y := To(id)], owner[id := y],
                   lists[y := [id] + lists[y]], {})
  {
    assert id in {id};
    PushLists(bips, heads, owner, lists, y, id);
    hide ListsOk;
  }

  lemma {:induction false} PushLists(bips: Bips, heads: seq<Ptr>, owner: map<nat, nat>, lists: seq<seq<nat>>, y: nat,
                                     id: nat)
    requires ListsOk(bips, heads, owner, lists) && y < |lists| && id in bips && id !in owner
    ensures ListsOk(bips[id := bips[id].(next := heads[y])], heads[y := To(id)], owner[id := y],
                    lists[y := [id] + lists[y]])
  {
    var bips' := bips[id := bips[id].(next := heads[y])];
    var (heads', lists', owner') := (heads[y := To(id)], lists[y := [id] + lists[y]], owner[id := y]);
    forall z | 0 <= z < |lists'| ensures Spelled(bips', lists'[z], heads'[z]) && Owned(owner', lists'[z], z) {
      assert Spelled(bips, lists[z], heads[z]) && Owned(owner, lists[z], z);
      if z == y {
        PushOne(bips, owner, lists[y], heads[y], y, id);
      } else {
        forall i | 0 <= i < |lists[z]| ensures lists[z][i] in bips { assert NextAt(bips, lists[z], i); }
        SpelledFrame(bips, bips', lists[z], heads[z]);
        OwnedFrame(owner, owner', lists[z], z);
      }
    }
  }

  lemma {:induction false} PushOne(bips: Bips, owner: map<nat, nat>, list: seq<nat>, head: Ptr, y: nat, id: nat)
    requires Spelled(bips, list, head) && Owned(owner, list, y) && id in bips && id !in owner
    ensures Spelled(bips[id := bips[id].(next := head)], [id] + list, To(id)) && Owned(owner[id := y], [id] + list, y)
  {
    var (bips', list') := (bips[id := bips[id].(next := head)], [id] + list);
    forall i | 0 <= i < |list'| ensures NextAt(bips', list', i) {
      if i > 0 { assert NextAt(bips, list, i - 1) && list'[i] == list[i - 1] && list[i - 1] in list; }
    }
  }

  // ----- putting a buffer at the end of a list

  /** The links after buffer id, which ends nothing yet, is put behind the last buffer of a list. */
  function Behind(bips: Bips, last: Ptr, id: nat): Bips {
    if last.To? && last.id in bips then bips[last.id := bips[last.id].(next := To(id))] else bips
  }

  lemma {:induction false} AppendOne(bips: Bips, owner: map<nat, nat>, list: seq<nat>, head: Ptr, y: nat, id: nat)
    requires Spelled(bips, list, head) && Owned(owner, list, y) && id in bips && id !in owner && bips[id].next == Null
    ensures Spelled(Behind(bips, LastOf(list), id), list + [id], if list == [] then To(id) else head)
    ensures Owned(owner[id := y], list + [id], y)
  {
    var (bips', list') := (Behind(bips, LastOf(list), id), list + [id]);
    forall i | 0 <= i < |list'| ensures NextAt(bips', list', i) {
      if i < |list| { assert NextAt(bips, list, i) && list[i] in list; }
      if |list| > 0 { assert NextAt(bips, list, |list| - 1) && list[|list| - 1] in list; }
    }
  }

  lemma {:induction false} AppendLists(bips: Bips, heads: seq<Ptr>, owner: map<nat, nat>, lists: seq<seq<nat>>, y: nat,
                                       id: nat)
    requires ListsOk(bips, heads, owner, lists) && y < |lists| && id in bips && id !in owner && bips[id].next == Null
    ensures ListsOk(Behind(bips, LastOf(lists[y]), id), heads[y := if lists[y] == [] then To(id) else heads[y]],
                    owner[id := y], lists[y := lists[y] + [id]])
  {
    var bips' := Behind(bips, LastOf(lists[y]), id);
    var (heads', lists', owner') := (heads[y := if lists[y] == [] then To(id) else heads[y]],
                                     lists[y := lists[y] + [id]], owner[id := y]);
    forall z | 0 <= z < |lists'| ensures Spelled(bips', lists'[z], heads'[z]) && Owned(owner', lists'[z], z) {
      assert Spelled(bips, lists[z], heads[z]) && Owned(owner, lists[z], z);
      assert Owned(owner, lists[y], y);
      if z == y {
        AppendOne(bips, owner, lists[y], heads[y], y, id);
      } else {
        if lists[y] != [] { assert lists[y][|lists[y]| - 1] in lists[y]; }
        AppendElsewhere(bips, owner, lists[y], lists[z], heads[z], y, z, id);
      }
    }
  }

  lemma {:induction false} AppendElsewhere(bips: Bips, owner: map<nat, nat>, list: seq<nat>, other: seq<nat>, head: Ptr,
                                           y: nat, z: nat, id: nat)
    requires Owned(owner, list, y) && Spelled(bips, other, head) && Owned(owner, other, z) && y != z && id !in owner
    ensures Spelled(Behind(bips, LastOf(list), id), other, head) && Owned(owner[id := y], other, z)
  {
    if list != [] { assert list[|list| - 1] in list && list[|list| - 1] !in other; }
    forall i | 0 <= i < |other| ensures other[i] in bips { assert NextAt(bips, other, i); }
    SpelledFrame(bips, Behind(bips, LastOf(list), id), other, head);
    OwnedFrame(owner, owner[id := y], other, z);
  }

  lemma {:induction false} AppendOk(bips: Bips, heads: seq<Ptr>, owner: map<nat, nat>, lists: seq<seq<nat>>, y: nat,
                                    id: nat)
    requires PoolOk(bips, heads, owner, lists, {id}) && y < |lists| && id in bips && bips[id].next == Null
    ensures PoolOk(Behind(bips, LastOf(lists[y]), id), heads[y := if lists[y] == [] then To(id) else heads[y]],
                   owner[id := y], lists[y := lists[y] + [id]], {})
  {
    assert id in {id};
    AppendLists(bips, heads, owner, lists, y, id);
    hide ListsOk;
  }

  /** Changing what a buffer holds leaves the lists alone. */
  lemma {:induction false} RingChangeOk(bips: Bips, heads: seq<Ptr>, owner: map<nat, nat>, lists: seq<seq<nat>>,
                                        limbo: set<nat>, id: nat, r: Ring)
    requires PoolOk(bips, heads, owner, lists, limbo) && id in bips && RingOk(r) && r.size == BipSize
    ensures PoolOk(bips[id := bips[id].(ring := r)], heads, owner, lists, limbo)
  {
    var bips' := bips[id := bips[id].(ring := r)];
    forall x | 0 <= x < |lists| ensures Spelled(bips', lists[x], heads[x]) && Owned(owner, lists[x], x) {
      assert Spelled(bips, lists[x], heads[x]) && Owned(owner, lists[x], x);
      forall i | 0 <= i < |lists[x]| ensures lists[x][i] in bips { assert NextAt(bips, lists[x], i); }
      SpelledFrame(bips, bips', lists[x], heads[x]);
    }
  }

  // ----- the bytes of a chain

  ghost function Buffered(bips: Bips, chain: seq<nat>): seq<byte> {
    if chain == [] then []
    else (if chain[0] in bips then bips[chain[0]].ring.bytes else []) + Buffered(bips, chain[1..])
  }

  lemma {:induction false} BufferedFrame(bips: Bips, bips': Bips, chain: seq<nat>)
    requires forall id :: id in chain ==> id in bips && id in bips' && bips'[id].ring.bytes == bips[id].ring.bytes
    ensures Buffered(bips', chain) == Buffered(bips, chain)
  {
    if chain != [] { BufferedFrame(bips, bips', chain[1..]); }
  }

  lemma {:induction false} BufferedConcat(bips: Bips, a: seq<nat>, b: seq<nat>)
    ensures Buffered(bips, a + b) == Buffered(bips, a) + Buffered(bips, b)
  {
    if a == [] {
      assert a + b == b;
    } else {
      assert (a + b)[1..] == a[1..] + b;
      BufferedConcat(bips, a[1..], b);
    }
  }

  /** Bytes written to the last buffer come last. */
  lemma {:induction false} BufferedLast(bips: Bips, chain: seq<nat>, r: Ring, more: seq<byte>)
    requires NoDup(chain) && chain != [] && forall id :: id in chain ==> id in bips
    requires r.bytes == bips[chain[|chain| - 1]].ring.bytes + more
    ensures var id := chain[|chain| - 1];
            Buffered(bips[id := bips[id].(ring := r)], chain) == Buffered(bips, chain) + more
  {
    var (init, id) := (chain[..|chain| - 1], chain[|chain| - 1]);
    var bips' := bips[id := bips[id].(ring := r)];
    assert chain == init + [id];
    assert id !in init;
    BufferedConcat(bips, init, [id]);
    BufferedConcat(bips', init, [id]);
    BufferedFrame(bips, bips', init);
    assert Buffered(bips, [id]) == bips[id].ring.bytes && Buffered(bips', [id]) == r.bytes;
  }

  /** Bytes read from the first buffer were first. */
  lemma {:induction false} BufferedFirst(bips: Bips, chain: seq<nat>, r: Ring, k: nat)
    requires NoDup(chain) && chain != [] && forall id :: id in chain ==> id in bips
    requires k <= |bips[chain[0]].ring.bytes| && r.bytes == bips[chain[0]].ring.bytes[k..]
    ensures var id := chain[0];
            bips[id].ring.bytes[..k] + Buffered(bips[id := bips[id].(ring := r)], chain) == Buffered(bips, chain)
  {
    var id := chain[0];
    var bips' := bips[id := bips[id].(ring := r)];
    assert id !in chain[1..];
    BufferedFrame(bips, bips', chain[1..]);
    var (b, rest) := (bips[id].ring.bytes, Buffered(bips, chain[1..]));
    assert Buffered(bips, chain) == b + rest && Buffered(bips', chain) == r.bytes + rest;
    hide Buffered, NoDup;
    Rejoin(b, k, rest);
  }

  lemma {:induction false} Rejoin(b: seq<byte>, k: nat, rest: seq<byte>)
    requires k <= |b|
    ensures b[..k] + (b[k..] + rest) == b + rest
  {}

  /** Every chain knows its last buffer. */
  ghost predicate TailsOk(tails: seq<Ptr>, lists: seq<seq<nat>>, n: nat)
    requires |tails| == n <= |lists|
  {
    forall h :: 0 <= h < n ==> tails[h] == LastOf(lists[h])
  }

  lemma {:induction false} TailAt(tails: seq<Ptr>, lists: seq<seq<nat>>, n: nat, h: nat)
    requires |tails| == n <= |lists| && TailsOk(tails, lists, n) && h < n
    ensures tails[h] == LastOf(lists[h]) && (tails[h] == Null <==> lists[h] == [])
  {}

  lemma {:induction false} TailSet(tails: seq<Ptr>, lists: seq<seq<nat>>, n: nat, h: nat, list: seq<nat>)
    requires |tails| == n <= |lists| && TailsOk(tails, lists, n) && h < n
    ensures TailsOk(tails[h := LastOf(list)], lists[h := list], n)
  {}

  lemma {:induction false} TailsSame(tails: seq<Ptr>, lists: seq<seq<nat>>, lists': seq<seq<nat>>, n: nat)
    requires |tails| == n <= |lists| && n <= |lists'| && TailsOk(tails, lists, n)
    requires forall h :: 0 <= h < n ==> lists'[h] == lists[h]
    ensures TailsOk(tails, lists', n)
  {}

  /** Stream h gets more bytes. */
  ghost function Grown(s: seq<seq<byte>>, h: nat, more: seq<byte>): (s': seq<seq<byte>>)
    requires h < |s|
    ensures |s'| == |s|
  {
    s[h := s[h] + more]
  }

  lemma {:induction false} GrownNone(s: seq<seq<byte>>, h: nat)
    requires h < |s|
    ensures Grown(s, h, []) == s
  {
    assert s[h] + [] == s[h];
  }

  lemma {:induction false} GrownTwice(s: seq<seq<byte>>, h: nat, a: seq<byte>, b: seq<byte>)
    requires h < |s|
    ensures Grown(Grown(s, h, a), h, b) == Grown(s, h, a + b)
  {
    assert s[h] + a + b == s[h] + (a + b);
  }

  lemma {:induction false} GrownMore(s: seq<seq<byte>>, h: nat, buf: seq<byte>, i: nat, k: nat)
    requires h < |s| && i + k <= |buf|
    ensures Grown(Grown(s, h, buf[..i]), h, buf[i..][..k]) == Grown(s, h, buf[..i + k])
    ensures buf[i..][..k] == buf[i..i + k]
  {
    GrownTwice(s, h, buf[..i], buf[i..][..k]);
    TakeMore(buf, i, k);
    hide Grown;
  }

  /** What left the buffers, followed by what is in them, is what was written. */
  ghost predicate StreamsOk(bips: Bips, lists: seq<seq<nat>>, written: seq<seq<byte>>, left: seq<seq<byte>>, n: nat) {
    && |written| == |left| == n <= |lists|
    && forall h :: 0 <= h < n ==> written[h] == left[h] + Buffered(bips, lists[h])
  }

  /** The streams do not notice changes to buffers outside their chains. */
  lemma {:induction false} StreamsFrame(bips: Bips, bips': Bips, lists: seq<seq<nat>>, lists': seq<seq<nat>>,
                                        written: seq<seq<byte>>, left: seq<seq<byte>>, n: nat)
    requires StreamsOk(bips, lists, written, left, n) && n <= |lists'|
    requires forall h :: 0 <= h < n ==> lists'[h] == lists[h]
    requires forall h, id :: 0 <= h < n && id in lists[h] ==>
               id in bips && id in bips' && bips'[id].ring.bytes == bips[id].ring.bytes
    ensures StreamsOk(bips', lists', written, left, n)
  {
    hide Buffered;
    forall h | 0 <= h < n ensures written[h] == left[h] + Buffered(bips', lists'[h]) {
      BufferedFrame(bips, bips', lists[h]);
    }
  }

  /** One stream changes, and the buffers of the others stay as they are. */
  lemma {:induction false} StreamChange(bips: Bips, bips': Bips, lists: seq<seq<nat>>, lists': seq<seq<nat>>,
                                        written: seq<seq<byte>>, left: seq<seq<byte>>,
                     n: nat, h: nat, w: seq<byte>, d: seq<byte>)
    requires StreamsOk(bips, lists, written, left, n) && n <= |lists'| && h < n
    requires forall g :: 0 <= g < n && g != h ==> lists'[g] == lists[g]
    requires forall g, id :: 0 <= g < n && g != h && id in lists[g] ==>
               id in bips && id in bips' && bips'[id].ring.bytes == bips[id].ring.bytes
    requires w == d + Buffered(bips', lists'[h])
    ensures StreamsOk(bips', lists', written[h := w], left[h := d], n)
  {
    hide Buffered;
    forall g | 0 <= g < n ensures written[h := w][g] == left[h := d][g] + Buffered(bips', lists'[g]) {
      if g != h { BufferedFrame(bips, bips', lists[g]); }
    }
  }

  /** Buffers in lists are in the pool, and in no other list. */
  lemma {:induction false} Members(bips: Bips, heads: seq<Ptr>, owner: map<nat, nat>, lists: seq<seq<nat>>,
                                   limbo: set<nat>)
    requires PoolOk(bips, heads, owner, lists, limbo)
    ensures forall x, id :: 0 <= x < |lists| && id in lists[x] ==> id in bips && id in owner && owner[id] == x
    ensures forall x :: 0 <= x < |lists| ==> NoDup(lists[x]) && heads[x] == At(lists[x], 0)
  {
    forall x, id | 0 <= x < |lists| && id in lists[x] ensures id in bips && id in owner && owner[id] == x {
      assert Owned(owner, lists[x], x);
    }
    forall x | 0 <= x < |lists| ensures NoDup(lists[x]) && heads[x] == At(lists[x], 0) {
      assert Owned(owner, lists[x], x) && Spelled(bips, lists[x], heads[x]);
    }
  }

  /** A fresh buffer from the allocator. */
  lemma {:induction false} MallocOk(bips: Bips, heads: seq<Ptr>, owner: map<nat, nat>, lists: seq<seq<nat>>, id: nat)
    requires PoolOk(bips, heads, owner, lists, {}) && id !in bips
    ensures PoolOk(bips[id := Bip(Null, EmptyRing)], heads, owner, lists, {id})
  {
    var bips' := bips[id := Bip(Null, EmptyRing)];
    forall x | 0 <= x < |lists| ensures Spelled(bips', lists[x], heads[x]) && Owned(owner, lists[x], x) {
      assert Spelled(bips, lists[x], heads[x]) && Owned(owner, lists[x], x);
      forall i | 0 <= i < |lists[x]| ensures lists[x][i] in bips { assert NextAt(bips, lists[x], i); }
      SpelledFrame(bips, bips', lists[x], heads[x]);
    }
  }

  /** A buffer off every list may be cleared. */
  lemma {:induction false} ResetOk(bips: Bips, heads: seq<Ptr>, owner: map<nat, nat>, lists: seq<seq<nat>>, id: nat)
    requires PoolOk(bips, heads, owner, lists, {id})
    ensures PoolOk(bips[id := Bip(Null, EmptyRing)], heads, owner, lists, {id})
  {
    var bips' := bips[id := Bip(Null, EmptyRing)];
    assert id in {id};
    forall x | 0 <= x < |lists| ensures Spelled(bips', lists[x], heads[x]) && Owned(owner, lists[x], x) {
      assert Spelled(bips, lists[x], heads[x]) && Owned(owner, lists[x], x);
      forall i | 0 <= i < |lists[x]| ensures lists[x][i] in bips { assert NextAt(bips, lists[x], i); }
      SpelledFrame(bips, bips', lists[x], heads[x]);
    }
  }

  lemma {:induction false} BehindKeeps(bips: Bips, last: Ptr, id: nat)
    requires id in bips
    ensures id in Behind(bips, last, id) && Behind(bips, last, id)[id].ring == bips[id].ring
  {}

  lemma {:induction false} LastMember(bips: Bips, heads: seq<Ptr>, owner: map<nat, nat>, lists: seq<seq<nat>>, h: nat)
    requires PoolOk(bips, heads, owner, lists, {}) && h < |lists| && lists[h] != []
    ensures var id := lists[h][|lists[h]| - 1]; id in bips && RingOk(bips[id].ring) && bips[id].ring.size == BipSize
  {
    assert Spelled(bips, lists[h], heads[h]);
    assert NextAt(bips, lists[h], |lists[h]| - 1);
  }

  /** An empty buffer at the end of a chain adds no bytes. */
  lemma {:induction false} AppendStream(bips: Bips, heads: seq<Ptr>, owner: map<nat, nat>, lists: seq<seq<nat>>, h: nat,
                                        id: nat,
                     written: seq<seq<byte>>, left: seq<seq<byte>>, n: nat)
    requires PoolOk(bips, heads, owner, lists, {id}) && h < n < |lists| && id in bips && bips[id].ring == EmptyRing
    requires StreamsOk(bips, lists, written, left, n)
    ensures StreamsOk(Behind(bips, LastOf(lists[h]), id), lists[h := lists[h] + [id]], written, left, n)
  {
    var (bips', lists') := (Behind(bips, LastOf(lists[h]), id), lists[h := lists[h] + [id]]);
    Members(bips, heads, owner, lists, {id});
    assert forall x :: x in bips ==> x in bips' && bips'[x].ring == bips[x].ring;
    BufferedFrame(bips, bips', lists[h]);
    BufferedConcat(bips', lists[h], [id]);
    assert Buffered(bips', [id]) == [];
    StreamChange(bips, bips', lists, lists', written, left, n, h, written[h], left[h]);
    assert written[h := written[h]] == written && left[h := left[h]] == left;
  }

  lemma {:induction false} FillStream(bips: Bips, heads: seq<Ptr>, owner: map<nat, nat>, lists: seq<seq<nat>>, h: nat,
                                      r: Ring, more: seq<byte>,
                   written: seq<seq<byte>>, left: seq<seq<byte>>, n: nat)
    requires PoolOk(bips, heads, owner, lists, {}) && h < n < |lists| && lists[h] != []
    requires StreamsOk(bips, lists, written, left, n)
    requires var id := lists[h][|lists[h]| - 1]; id in bips && r.bytes == bips[id].ring.bytes + more
    ensures var id := lists[h][|lists[h]| - 1];
            StreamsOk(bips[id := bips[id].(ring := r)], lists, Grown(written, h, more), left, n)
  {
    var id := lists[h][|lists[h]| - 1];
    Members(bips, heads, owner, lists, {});
    assert id in lists[h];
    BufferedLast(bips, lists[h], r, more);
    hide PoolOk;
    StreamChange(bips, bips[id := bips[id].(ring := r)], lists, lists, written, left, n, h, written[h] + more, left[h]);
    assert left[h := left[h]] == left;
  }

  // ----- the whole state

  datatype Pool = Pool(
    bips: Bips,
    heads: seq<Ptr>,             // bip_first of every chain, then the free list
    tails: seq<Ptr>)             // bip_last of every chain

  /** What the pool means: the owner of every buffer, every list, and every stream. */
  datatype Layout = Layout(owner: map<nat, nat>, lists: seq<seq<nat>>, written: seq<seq<byte>>, left: seq<seq<byte>>)

  ghost predicate Ok(p: Pool, g: Layout, n: nat, limbo: set<nat>) {
    && |p.heads| == |g.lists| == n + 1 && |p.tails| == |g.written| == |g.left| == n
    && PoolOk(p.bips, p.heads, g.owner, g.lists, limbo)
    && TailsOk(p.tails, g.lists, n) && StreamsOk(p.bips, g.lists, g.written, g.left, n)
  }

  /** What every step of the pool leaves alone. */
  ghost predicate SameStreams(g: Layout, g': Layout) { g'.written == g.written && g'.left == g.left }

  /** Take the first buffer off list x. */
  function Taken(p: Pool, x: nat, id: nat): Pool
    requires x < |p.heads| && id in p.bips
  {
    p.(heads := p.heads[x := p.bips[id].next])
  }

  ghost function TakenLayout(g: Layout, x: nat): Layout
    requires x < |g.lists| && g.lists[x] != []
  {
    g.(owner := g.owner - {g.lists[x][0]}, lists := g.lists[x := g.lists[x][1..]])
  }

  lemma {:induction false} TakeFreeOk(p: Pool, g: Layout, n: nat)
    requires Ok(p, g, n, {}) && g.lists[n] != []
    ensures var id := g.lists[n][0];
            id in p.bips && p.heads[n] == To(id) && Ok(Taken(p, n, id), TakenLayout(g, n), n, {id})
  {
    TakeOk(p.bips, p.heads, g.owner, g.lists, n);
    Members(p.bips, p.heads, g.owner, g.lists, {});
    hide PoolOk;
    StreamsFrame(p.bips, p.bips, g.lists, TakenLayout(g, n).lists, g.written, g.left, n);
    TailsSame(p.tails, g.lists, TakenLayout(g, n).lists, n);
    hide StreamsOk, TailsOk;
  }

  function Cleared(p: Pool, id: nat): Pool { p.(bips := p.bips[id := Bip(Null, EmptyRing)]) }

  lemma {:induction false} ClearNewOk(p: Pool, g: Layout, n: nat, id: nat)
    requires Ok(p, g, n, {}) && id !in p.bips
    ensures Ok(Cleared(p, id), g, n, {id})
  {
    MallocOk(p.bips, p.heads, g.owner, g.lists, id);
    Members(p.bips, p.heads, g.owner, g.lists, {});
    hide PoolOk;
    StreamsFrame(p.bips, Cleared(p, id).bips, g.lists, g.lists, g.written, g.left, n);
    hide StreamsOk, TailsOk;
  }

  lemma {:induction false} ClearOk(p: Pool, g: Layout, n: nat, id: nat)
    requires Ok(p, g, n, {id})
    ensures Ok(Cleared(p, id), g, n, {id})
  {
    ResetOk(p.bips, p.heads, g.owner, g.lists, id);
    Members(p.bips, p.heads, g.owner, g.lists, {id});
    assert id in {id} && id !in g.owner;
    hide PoolOk;
    StreamsFrame(p.bips, Cleared(p, id).bips, g.lists, g.lists, g.written, g.left, n);
    hide StreamsOk, TailsOk;
  }

  function Freed(p: Pool, n: nat, id: nat): Pool
    requires n < |p.heads| && id in p.bips
  {
    p.(bips := p.bips[id := p.bips[id].(next := p.heads[n])], heads := p.heads[n := To(id)])
  }

  ghost function FreedLayout(g: Layout, n: nat, id: nat): Layout
    requires n < |g.lists|
  {
    g.(owner := g.owner[id := n], lists := g.lists[n := [id] + g.lists[n]])
  }

  lemma {:induction false} FreeOk(p: Pool, g: Layout, n: nat, id: nat)
    requires Ok(p, g, n, {id})
    ensures id in p.bips && Ok(Freed(p, n, id), FreedLayout(g, n, id), n, {})
  {
    PushOk(p.bips, p.heads, g.owner, g.lists, n, id);
    Members(p.bips, p.heads, g.owner, g.lists, {id});
    hide PoolOk;
    var lists' := FreedLayout(g, n, id).lists;
    StreamsFrame(p.bips, Freed(p, n, id).bips, g.lists, lists', g.written, g.left, n);
    TailsSame(p.tails, g.lists, lists', n);
    hide StreamsOk, TailsOk;
  }

  /** A cleared buffer goes to the end of chain h. */
  function Extended(p: Pool, h: nat, id: nat): Pool
    requires h < |p.heads| && h < |p.tails|
  {
    Pool(Behind(p.bips, p.tails[h], id), p.heads[h := if p.tails[h] == Null then To(id) else p.heads[h]],
         p.tails[h := To(id)])
  }

  ghost function ExtendedLayout(g: Layout, h: nat, id: nat): Layout
    requires h < |g.lists|
  {
    g.(owner := g.owner[id := h], lists := g.lists[h := g.lists[h] + [id]])
  }

  lemma {:induction false} ExtendOk(p: Pool, g: Layout, n: nat, h: nat, id: nat)
    requires Ok(p, g, n, {id}) && h < n && id in p.bips && p.bips[id] == Bip(Null, EmptyRing)
    ensures Ok(Extended(p, h, id), ExtendedLayout(g, h, id), n, {})
  {
    TailAt(p.tails, g.lists, n, h);
    TailSet(p.tails, g.lists, n, h, g.lists[h] + [id]);
    AppendOk(p.bips, p.heads, g.owner, g.lists, h, id);
    AppendStream(p.bips, p.heads, g.owner, g.lists, h, id, g.written, g.left, n);
    hide PoolOk, StreamsOk, TailsOk, Behind;
  }

  function WithRing(p: Pool, id: nat, r: Ring): Pool
    requires id in p.bips
  {
    p.(bips := p.bips[id := p.bips[id].(ring := r)])
  }

  lemma {:induction false} FillOk(p: Pool, g: Layout, n: nat, h: nat, buf: seq<byte>)
    requires Ok(p, g, n, {}) && h < n && g.lists[h] != []
    ensures p.tails[h].To? && p.tails[h].id in p.bips && RingOk(p.bips[p.tails[h].id].ring)
    ensures var id := p.tails[h].id;
            var r := p.bips[id].ring;
            r.size == BipSize &&
            Ok(WithRing(p, id, Written(r, buf)), g.(written := Grown(g.written, h, buf[..Room(r, |buf|)])), n, {})
  {
    TailAt(p.tails, g.lists, n, h);
    LastMember(p.bips, p.heads, g.owner, g.lists, h);
    var id := p.tails[h].id;
    var r := p.bips[id].ring;
    RingChangeOk(p.bips, p.heads, g.owner, g.lists, {}, id, Written(r, buf));
    FillStream(p.bips, p.heads, g.owner, g.lists, h, Written(r, buf), buf[..Room(r, |buf|)], g.written, g.left, n);
    hide PoolOk, StreamsOk, TailsOk, Grown;
  }

  ghost function DirectLayout(g: Layout, h: nat, bytes: seq<byte>): Layout
    requires h < |g.written| && h < |g.left|
  {
    g.(written := Grown(g.written, h, bytes), left := Grown(g.left, h, bytes))
  }

  /** Bytes handed to the peer while the chain is empty. */
  lemma {:induction false} DirectOk(p: Pool, g: Layout, n: nat, h: nat, bytes: seq<byte>)
    requires Ok(p, g, n, {}) && h < n && g.lists[h] == []
    ensures Ok(p, DirectLayout(g, h, bytes), n, {})
  {
    Members(p.bips, p.heads, g.owner, g.lists, {});
    StreamChange(p.bips, p.bips, g.lists, g.lists, g.written, g.left, n, h, g.written[h] + bytes, g.left[h] + bytes);
    hide PoolOk, StreamsOk, TailsOk;
  }

  /** The first k bytes of the first buffer of chain h go to the peer. */
  lemma {:induction false} DeliverOk(p: Pool, g: Layout, n: nat, h: nat, k: nat)
    requires Ok(p, g, n, {}) && h < n && g.lists[h] != []
    ensures var id := g.lists[h][0];
            p.heads[h] == To(id) && id in p.bips && RingOk(p.bips[id].ring)
    ensures var r := p.bips[g.lists[h][0]].ring;
            k <= |r.bytes| ==>
              Ok(WithRing(p, g.lists[h][0], Stepped(r, k)), g.(left := Grown(g.left, h, r.bytes[..k])), n, {})
  {
    FirstMember(p.bips, p.heads, g.owner, g.lists, h);
    var id := g.lists[h][0];
    var r := p.bips[id].ring;
    if k <= |r.bytes| {
      SteppedOk(r, k);
      RingChangeOk(p.bips, p.heads, g.owner, g.lists, {}, id, Stepped(r, k));
      DeliverStream(p.bips, p.heads, g.owner, g.lists, h, Stepped(r, k), k, g.written, g.left, n);
      hide PoolOk, StreamsOk, TailsOk, Grown;
    }
  }

  lemma {:induction false} FirstMember(bips: Bips, heads: seq<Ptr>, owner: map<nat, nat>, lists: seq<seq<nat>>, h: nat)
    requires PoolOk(bips, heads, owner, lists, {}) && h < |lists| && lists[h] != []
    ensures var id := lists[h][0];
            heads[h] == To(id) && id in bips && RingOk(bips[id].ring) && bips[id].ring.size == BipSize
  {
    assert Spelled(bips, lists[h], heads[h]);
    assert NextAt(bips, lists[h], 0);
  }

  lemma {:induction false} DeliverStream(bips: Bips, heads: seq<Ptr>, owner: map<nat, nat>, lists: seq<seq<nat>>,
                                         h: nat, r: Ring, k: nat,
                      written: seq<seq<byte>>, left: seq<seq<byte>>, n: nat)
    requires PoolOk(bips, heads, owner, lists, {}) && h < n < |lists| && lists[h] != []
    requires StreamsOk(bips, lists, written, left, n)
    requires var id := lists[h][0]; id in bips && k <= |bips[id].ring.bytes| && r.bytes == bips[id].ring.bytes[k..]
    ensures var id := lists[h][0];
            StreamsOk(bips[id := bips[id].(ring := r)], lists, written, Grown(left, h, bips[id].ring.bytes[..k]), n)
  {
    var id := lists[h][0];
    var more := bips[id].ring.bytes[..k];
    Members(bips, heads, owner, lists, {});
    assert id in lists[h];
    BufferedFirst(bips, lists[h], r, k);
    hide PoolOk;
    StreamChange(bips, bips[id := bips[id].(ring := r)], lists, lists, written, left, n, h, written[h], left[h] + more);
    assert written[h := written[h]] == written;
  }

  /** The first buffer leaves chain h, with the bytes it still holds. */
  function Popped(p: Pool, h: nat, id: nat): Pool
    requires h < |p.heads| && h < |p.tails| && id in p.bips
  {
    var next := p.bips[id].next;
    p.(heads := p.heads[h := next], tails := p.tails[h := if next == Null then Null else p.tails[h]])
  }

  /** What the first buffer of a chain holds. */
  ghost function FirstBytes(p: Pool, g: Layout, h: nat): seq<byte>
    requires h < |g.lists|
  {
    if g.lists[h] != [] && g.lists[h][0] in p.bips then p.bips[g.lists[h][0]].ring.bytes else []
  }

  ghost function PoppedLayout(p: Pool, g: Layout, h: nat): Layout
    requires h < |g.lists| && g.lists[h] != [] && h < |g.written| && h < |g.left|
  {
    g.(owner := g.owner - {g.lists[h][0]}, lists := g.lists[h := g.lists[h][1..]],
       left := Grown(g.left, h, FirstBytes(p, g, h)))
  }

  lemma {:induction false} PopOk(p: Pool, g: Layout, n: nat, h: nat)
    requires Ok(p, g, n, {}) && h < n && g.lists[h] != []
    ensures var id := g.lists[h][0];
            id in p.bips && p.heads[h] == To(id) && Ok(Popped(p, h, id), PoppedLayout(p, g, h), n, {id})
  {
    var (id, rest) := (g.lists[h][0], g.lists[h][1..]);
    TakeOk(p.bips, p.heads, g.owner, g.lists, h);
    Members(p.bips, p.heads, g.owner, g.lists, {});
    TailAt(p.tails, g.lists, n, h);
    TailSet(p.tails, g.lists, n, h, rest);
    assert Popped(p, h, id).tails == p.tails[h := LastOf(rest)];
    hide PoolOk, TailsOk, Buffered;
    FirstOfChain(p, g, n, h);
    StreamChange(p.bips, p.bips, g.lists, g.lists[h := rest], g.written, g.left, n, h, g.written[h],
                 g.left[h] + FirstBytes(p, g, h));
    assert g.written[h := g.written[h]] == g.written;
    hide StreamsOk;
  }

  /** The bytes of a chain are those of its first buffer and then the rest. */
  lemma {:induction false} FirstOfChain(p: Pool, g: Layout, n: nat, h: nat)
    requires StreamsOk(p.bips, g.lists, g.written, g.left, n) && h < n && g.lists[h] != []
    ensures Buffered(p.bips, g.lists[h]) == FirstBytes(p, g, h) + Buffered(p.bips, g.lists[h][1..])
    ensures g.written[h] == g.left[h] + FirstBytes(p, g, h) + Buffered(p.bips, g.lists[h][1..])
  {
    assert g.written[h] == g.left[h] + Buffered(p.bips, g.lists[h]);
    hide Buffered;
    Append3(g.left[h], FirstBytes(p, g, h), Buffered(p.bips, g.lists[h][1..]));
  }

  lemma {:induction false} Append3(a: seq<byte>, b: seq<byte>, c: seq<byte>)
    ensures a + (b + c) == a + b + c
  {}

  // ----- what happens to the bytes that leave

  /** The last bytes to leave a closed chain were dropped; an open chain has dropped nothing. */
  ghost predicate LossOk(open: seq<bool>, left: seq<seq<byte>>, dropped: seq<seq<byte>>, n: nat) {
    && |open| == |left| == |dropped| == n
    && (forall h :: 0 <= h < n ==> Suffix(dropped[h], left[h]))
    && (forall h :: 0 <= h < n && open[h] ==> dropped[h] == [])
  }

  predicate Suffix(a: seq<byte>, b: seq<byte>) { |a| <= |b| && b[|b| - |a|..] == a }

  lemma {:induction false} SuffixMore(a: seq<byte>, b: seq<byte>, more: seq<byte>)
    requires Suffix(a, b)
    ensures Suffix(a + more, b + more) && Suffix([], b)
  {}

  /** Bytes leave an open chain for its peer. */
  lemma {:induction false} LossDelivered(open: seq<bool>, left: seq<seq<byte>>, dropped: seq<seq<byte>>, n: nat, h: nat,
                                         more: seq<byte>)
    requires LossOk(open, left, dropped, n) && h < n && (open[h] || more == [])
    ensures LossOk(open, Grown(left, h, more), dropped, n)
  {
    hide Suffix;
    SuffixMore(dropped[h], left[h], more);
    NoSuffix(Grown(left, h, more)[h]);
    if more == [] { GrownNone(left, h); }
  }

  lemma {:induction false} NoSuffix(s: seq<byte>)
    ensures Suffix([], s)
  {}

  /** A chain is closed and its bytes go nowhere. */
  lemma {:induction false} LossDropped(open: seq<bool>, left: seq<seq<byte>>, dropped: seq<seq<byte>>, n: nat, h: nat,
                                       more: seq<byte>)
    requires LossOk(open, left, dropped, n) && h < n
    ensures LossOk(open[h := false], Grown(left, h, more), Grown(dropped, h, more), n)
  {
    hide Suffix;
    SuffixMore(dropped[h], left[h], more);
  }

  /** The bytes waiting in chain h. */
  ghost function Waiting(p: Pool, g: Layout, h: nat): seq<byte>
    requires h < |g.lists|
  {
    Buffered(p.bips, g.lists[h])
  }

  lemma {:induction false} WaitingIs(p: Pool, g: Layout, n: nat, h: nat)
    requires Ok(p, g, n, {}) && h < n
    ensures g.written[h] == g.left[h] + Waiting(p, g, h) && (p.heads[h] == Null <==> g.lists[h] == [])
    ensures |Waiting(p, g, h)| == |g.written[h]| - |g.left[h]|
  {
    Members(p.bips, p.heads, g.owner, g.lists, {});
  }

  // ----- the operations

  class Pipes {
    const n: nat                 // the number of chains
    var p: Pool
    var open: seq<bool>          // the peer or endpoint is not NULL
    ghost var g: Layout
    ghost var dropped: seq<seq<byte>>    // bytes thrown away when the chain was closed

    /** Every buffer is in one list, and what left a chain followed by what is in it is what was written to it. */
    ghost predicate Sound()
      reads this
    {
      Ok(p, g, n, {})
    }

    ghost predicate Valid()
      reads this
    {
      Sound() && LossOk(open, g.left, dropped, n)
    }

    /** What the peer or endpoint of a chain has received. */
    ghost function Delivered(h: nat): seq<byte>
      requires Valid() && h < n
      reads this
    {
      assert Suffix(dropped[h], g.left[h]);
      g.left[h][..|g.left[h]| - |dropped[h]|]
    }

    constructor (n: nat)
      ensures Valid() && this.n == n && p.bips == map[]
      ensures forall h :: 0 <= h < n ==> g.written[h] == g.left[h] == dropped[h] == [] && open[h]
    {
      this.n := n;
      open, dropped := seq(n, _ => true), seq(n, _ => []);
      p := Pool(map[], seq(n + 1, _ => Null), seq(n, _ => Null));
      g := Layout(map[], seq(n + 1, _ => []), seq(n, _ => []), seq(n, _ => []));
    }

    /** bip_buffer_alloc: from the free list if it has one. */
    method Alloc() returns (id: nat)
      requires Sound()
      modifies this`p, this`g
      ensures Ok(p, g, n, {id}) && id in p.bips && p.bips[id] == Bip(Null, EmptyRing) && SameStreams(old(g), g)
      ensures forall h :: 0 <= h < n ==> g.lists[h] == old(g).lists[h]
      ensures old(g).lists[n] != [] ==> p.bips.Keys == old(p).bips.Keys
    {
      Members(p.bips, p.heads, g.owner, g.lists, {});
      if p.heads[n].To? {
        id := p.heads[n].id;
        TakeFreeOk(p, g, n);
        p, g := Taken(p, n, id), TakenLayout(g, n);
      } else {
        ghost var free := Unused(p.bips.Keys);
        assert free !in p.bips.Keys;
        id :| id !in p.bips;
        ClearNewOk(p, g, n, id);
        p := Cleared(p, id);
      }
      ClearOk(p, g, n, id);
      hide Ok;
      p := Cleared(p, id);
    }

    /** bip_buffer_free. */
    method Free(id: nat)
      requires Ok(p, g, n, {id})
      modifies this`p, this`g
      ensures Sound() && SameStreams(old(g), g) && forall h :: 0 <= h < n ==> g.lists[h] == old(g).lists[h]
      ensures p.bips.Keys == old(p).bips.Keys
    {
      FreeOk(p, g, n, id);
      p, g := Freed(p, n, id), FreedLayout(g, n, id);
    }

    /** A new empty buffer at the end of a chain. */
    method Extend(h: nat)
      requires Sound() && h < n
      modifies this`p, this`g
      ensures Sound() && |g.lists| > h && g.lists[h] != [] && SameStreams(old(g), g) && LastIsEmpty(p, h)
      ensures OtherLists(old(g), g, n, h)
    {
      var id := Alloc();
      ExtendOk(p, g, n, h, id);
      BehindKeeps(p.bips, p.tails[h], id);
      hide PoolOk, StreamsOk, TailsOk, Behind;
      p, g := Extended(p, h, id), ExtendedLayout(g, h, id);
    }

    /** cbuffer_write on the last buffer of a chain. */
    method Fill(h: nat, buf: seq<byte>) returns (len2: nat)
      requires Sound() && h < n && g.lists[h] != []
      modifies this`p, this`g
      ensures Sound() && len2 <= |buf| && h < |old(g).written| &&
              g == old(g).(written := Grown(old(g).written, h, buf[..len2]))
      ensures LastIsEmpty(old(p), h) && buf != [] ==> len2 > 0
    {
      FillOk(p, g, n, h, buf);
      hide PoolOk, StreamsOk, TailsOk, Grown;
      var id := p.tails[h].id;
      len2 := Room(p.bips[id].ring, |buf|);
      p := WithRing(p, id, Written(p.bips[id].ring, buf));
      g := g.(written := Grown(g.written, h, buf[..len2]));
    }

    /** The last part of charpipehalf_write and charbuffer_write: buffer what is left. */
    method BufferRest(h: nat, buf: seq<byte>)
      requires Sound() && h < n && buf != []
      modifies this`p, this`g
      ensures Sound() && g.written == Grown(old(g).written, h, buf) && g.left == old(g).left &&
              OtherLists(old(g), g, n, h)
    {
      TailAt(p.tails, g.lists, n, h);
      OtherListsSame(g, n, h);
      hide Ok, Grown, OtherLists;
      if p.tails[h] == Null { Extend(h); }
      ghost var g1 := g;
      FillChain(h, buf);
      OtherListsTwice(old(g), g1, g, n, h);
    }

    /** Fill the last buffer and then new ones, until everything is in. */
    method FillChain(h: nat, buf: seq<byte>)
      requires Sound() && h < n && h < |g.lists| && g.lists[h] != [] && buf != []
      modifies this`p, this`g
      ensures Sound() && h < |old(g).written| && g.written == Grown(old(g).written, h, buf) && g.left == old(g).left
      ensures OtherLists(old(g), g, n, h)
    {
      var done := 0;
      GrownNone(g.written, h);
      OtherListsSame(g, n, h);
      assert buf[..0] == [];
      hide Ok, Grown, LastIsEmpty, OtherLists;
      ghost var empty := false;
      while true
        invariant Sound() && h < |g.lists| && g.lists[h] != [] && done < |buf| && g.left == old(g).left
        invariant g.written == Grown(old(g).written, h, buf[..done]) && (empty ==> LastIsEmpty(p, h))
        invariant OtherLists(old(g), g, n, h)
        decreases |buf| - done, !empty
      {
        ghost var g0 := g;
        var len2 := Fill(h, buf[done..]);
        OtherListsLeft(old(g), g0, g, n, h);
        ghost var g1 := g;
        GrownMore(old(g).written, h, buf, done, len2);
        done := done + len2;
        if done == |buf| { break; }
        Extend(h);
        OtherListsTwice(old(g), g1, g, n, h);
        empty := true;
      }
      assert buf[..done] == buf;
    }

    /** The loop of charpipehalf_write that hands bytes to the peer while it can read. */
    method WriteDirect(h: nat, buf: seq<byte>, asks: bool, canRead: nat -> nat) returns (ret: nat)
      requires Sound() && h < n && g.lists[h] == []
      modifies this`g
      ensures Sound() && ret <= |buf| && g == DirectLayout(old(g), h, buf[..ret])
      ensures !asks || (forall k :: canRead(k) > 0) ==> ret == |buf|
    {
      ret := 0;
      var calls := 0;
      GrownNone(g.written, h);
      GrownNone(g.left, h);
      hide PoolOk, StreamsOk, TailsOk, Grown;
      while ret < |buf|
        invariant Sound() && ret <= |buf| && g == DirectLayout(old(g), h, buf[..ret])
      {
        var size := |buf| - ret;
        if asks {
          var room := canRead(calls);
          calls := calls + 1;
          if room == 0 { break; }
          if room < size { size := room; }
        }
        DirectOk(p, g, n, h, buf[ret..ret + size]);
        GrownMore(old(g).written, h, buf, ret, size);
        GrownMore(old(g).left, h, buf, ret, size);
        g := DirectLayout(g, h, buf[ret..ret + size]);
        ret := ret + size;
      }
    }

    /** charpipehalf_write. Every byte is taken: delivered at once, or buffered behind earlier ones. */
    method Write(h: nat, buf: seq<byte>, peerReads: bool, asks: bool, canRead: nat -> nat)
      returns (ret: nat, ghost direct: nat)
      requires Valid() && h < n
      modifies this`p, this`g
      ensures Valid() && ret == |buf| && g.written == Grown(old(g).written, h, buf) && OtherLists(old(g), g, n, h)
      ensures direct <= |buf| && g.left == Grown(old(g).left, h, buf[..direct])
      ensures direct > 0 ==> open[h] && peerReads && old(g).lists[h] == []
      ensures open[h] && peerReads && old(g).lists[h] == [] && (!asks || forall k :: canRead(k) > 0) ==> direct == |buf|
    {
      TailAt(p.tails, g.lists, n, h);
      ret := 0;
      if p.tails[h] == Null && open[h] && peerReads {
        ret := WriteDirect(h, buf, asks, canRead);
      } else {
        GrownNone(g.written, h);
        GrownNone(g.left, h);
      }
      direct := ret;
      assert OtherLists(old(g), g, n, h);
      LossDelivered(open, old(g).left, dropped, n, h, buf[..ret]);
      hide Ok, Grown, OtherLists, LossOk;
      BufferTail(h, buf, ret, old(g).written);
      OtherListsTwice(old(g), old(g), g, n, h);
      ret := |buf|;
    }

    /** Buffer what was not handed over. */
    method BufferTail(h: nat, buf: seq<byte>, ret: nat, ghost before: seq<seq<byte>>)
      requires Sound() && h < n && ret <= |buf| && |before| == n && g.written == Grown(before, h, buf[..ret])
      modifies this`p, this`g
      ensures Sound() && g.written == Grown(before, h, buf) && g.left == old(g).left && OtherLists(old(g), g, n, h)
    {
      OtherListsSame(g, n, h);
      hide Ok, Grown, OtherLists;
      if ret == |buf| {
        assert buf[..ret] == buf;
        return;
      }
      GrownTwice(before, h, buf[..ret], buf[ret..]);
      assert buf[..ret] + buf[ret..] == buf;
      BufferRest(h, buf[ret..]);
    }

    /** charbuffer_write: the endpoint may take any part of the data, or answer nonsense. */
    method BufferWrite(h: nat, buf: seq<byte>, answer: int) returns (ret: nat, ghost direct: nat)
      requires Valid() && h < n
      modifies this`p, this`g
      ensures Valid() && ret == |buf| && g.written == Grown(old(g).written, h, buf) && OtherLists(old(g), g, n, h)
      ensures direct <= |buf| && g.left == Grown(old(g).left, h, buf[..direct])
      ensures direct == if old(g).lists[h] == [] && open[h] then Clip(answer, |buf|) else 0
    {
      TailAt(p.tails, g.lists, n, h);
      ret := 0;
      GrownNone(g.written, h);
      GrownNone(g.left, h);
      if p.tails[h] == Null && open[h] {
        ret := Clip(answer, |buf|);
        DirectOk(p, g, n, h, buf[..ret]);
        g := DirectLayout(g, h, buf[..ret]);
      }
      direct := ret;
      assert OtherLists(old(g), g, n, h);
      LossDelivered(open, old(g).left, dropped, n, h, buf[..ret]);
      hide Ok, Grown, OtherLists, LossOk;
      BufferTail(h, buf, ret, old(g).written);
      OtherListsTwice(old(g), old(g), g, n, h);
      ret := |buf|;
    }

    /** The first buffer of a chain goes back to the free list. */
    method Pop(h: nat)
      requires Sound() && h < n && g.lists[h] != []
      modifies this`p, this`g
      ensures Sound() && g.lists[h] == old(g).lists[h][1..] && g.written == old(g).written &&
              OtherLists(old(g), g, n, h)
      ensures g.left == Grown(old(g).left, h, FirstBytes(old(p), old(g), h)) && p.bips.Keys == old(p).bips.Keys
    {
      PopOk(p, g, n, h);
      hide PoolOk, StreamsOk, TailsOk;
      var id := p.heads[h].id;
      p, g := Popped(p, h, id), PoppedLayout(p, g, h);
      Free(id);
    }

    /** Bytes of the first buffer go to the peer: cbuffer_read_peek, the callback, cbuffer_read_step. */
    method Deliver(h: nat, k: nat)
      requires Sound() && h < n && g.lists[h] != [] && g.lists[h][0] in p.bips &&
               k <= |p.bips[g.lists[h][0]].ring.bytes|
      modifies this`p, this`g
      ensures Sound() && g == old(g).(left := Grown(old(g).left, h, old(p).bips[old(g).lists[h][0]].ring.bytes[..k]))
    {
      DeliverOk(p, g, n, h, k);
      hide PoolOk, StreamsOk, TailsOk, Grown;
      var id := p.heads[h].id;
      var r := p.bips[id].ring;
      p := WithRing(p, id, Stepped(r, k));
      g := g.(left := Grown(g.left, h, r.bytes[..k]));
    }

    /** charpipehalf_poll. What it sends is the oldest waiting bytes, and it sends all of them to a peer that always
        has room. */
    method Poll(h: nat, peerReads: bool, throttled: bool, canRead: nat -> nat) returns (ghost sent: seq<byte>)
      requires Valid() && h < n
      modifies this`p, this`g
      ensures Valid() && g.written == old(g).written && g.left == Grown(old(g).left, h, sent) &&
              OtherLists(old(g), g, n, h)
      ensures sent != [] ==> open[h] && peerReads
      ensures open[h] && peerReads && (!throttled || forall k :: canRead(k) > 0) ==>
                g.lists[h] == [] && g.left[h] == g.written[h]
    {
      sent := [];
      GrownNone(g.left, h);
      OtherListsSame(g, n, h);
      if !open[h] || !peerReads { return; }
      hide PoolOk, StreamsOk, TailsOk, Grown, LossOk, OtherLists;
      var calls := 0;
      while p.heads[h].To?
        invariant Sound() && g.written == old(g).written && g.left == Grown(old(g).left, h, sent) &&
                  OtherLists(old(g), g, n, h)
        decreases Ahead(g, h)
      {
        FirstFacts(p, g, n, h);
        AheadBound(p, g, n, h);
        ghost var g0 := g;
        var r := p.bips[p.heads[h].id].ring;
        var size := |r.bytes|;
        if size == 0 {
          GrownNone(g.left, h);
          Pop(h);
          OtherListsTwice(old(g), g0, g, n, h);
          continue;
        }
        if throttled {
          var size2 := canRead(calls);
          calls := calls + 1;
          if size2 == 0 { break; }
          if size > size2 { size := size2; }
        }
        PeekOk(r);
        var avail := PeekSize(r);
        if avail > size { avail := size; }
        GrownTwice(old(g).left, h, sent, r.bytes[..avail]);
        GrownAt(g.left, h, r.bytes[..avail]);
        Deliver(h, avail);
        OtherListsLeft(old(g), g0, g, n, h);
        sent := sent + r.bytes[..avail];
      }
      WaitingIs(p, g, n, h);
      LossDelivered(open, old(g).left, dropped, n, h, sent);
    }

    /** charbuffer_poll: it stops at the first short write. */
    method BufferPoll(h: nat, answer: nat -> int) returns (ghost sent: seq<byte>)
      requires Valid() && h < n
      modifies this`p, this`g
      ensures Valid() && g.written == old(g).written && g.left == Grown(old(g).left, h, sent) &&
              OtherLists(old(g), g, n, h)
      ensures sent != [] ==> open[h]
      ensures open[h] && (forall k :: answer(k) >= BipSize) ==> g.lists[h] == [] && g.left[h] == g.written[h]
    {
      sent := [];
      GrownNone(g.left, h);
      OtherListsSame(g, n, h);
      if !open[h] { return; }
      hide PoolOk, StreamsOk, TailsOk, Grown, LossOk, OtherLists;
      var calls := 0;
      while p.heads[h].To?
        invariant Sound() && g.written == old(g).written && g.left == Grown(old(g).left, h, sent) &&
                  OtherLists(old(g), g, n, h)
        decreases Ahead(g, h)
      {
        FirstFacts(p, g, n, h);
        AheadBound(p, g, n, h);
        ghost var g0 := g;
        var r := p.bips[p.heads[h].id].ring;
        PeekOk(r);
        var avail := PeekSize(r);
        if avail == 0 {
          GrownNone(g.left, h);
          Pop(h);
          OtherListsTwice(old(g), g0, g, n, h);
          continue;
        }
        var size := Clip(answer(calls), avail);
        calls := calls + 1;
        GrownTwice(old(g).left, h, sent, r.bytes[..size]);
        GrownAt(g.left, h, r.bytes[..size]);
        Deliver(h, size);
        OtherListsLeft(old(g), g0, g, n, h);
        sent := sent + r.bytes[..size];
        if size < avail { break; }
      }
      WaitingIs(p, g, n, h);
      LossDelivered(open, old(g).left, dropped, n, h, sent);
    }

    /** charpipehalf_close and charbuffer_close: every buffer of the chain goes back to the free list, and the bytes
        that were waiting are dropped. */
    method Close(h: nat)
      requires Valid() && h < n
      modifies this
      ensures Valid() && g.lists[h] == [] && !open[h] && p.bips.Keys == old(p).bips.Keys
      ensures g.written == old(g).written && OtherLists(old(g), g, n, h) && open == old(open)[h := false]
      ensures dropped == Grown(old(dropped), h, old(Waiting(p, g, h))) &&
              g.left == Grown(old(g).left, h, old(Waiting(p, g, h)))
      ensures old(open)[h] ==> g.written[h] == old(g).left[h] + dropped[h]
    {
      ghost var waiting := Waiting(p, g, h);
      FreeChain(h);
      hide Ok, Grown, OtherLists, LossOk;
      LossDropped(open, old(g).left, dropped, n, h, waiting);
      DroppedAll(open, old(g).left, dropped, n, h, waiting);
      open := open[h := false];
      dropped := Grown(dropped, h, waiting);
    }

    /** The loop of both close functions. */
    method FreeChain(h: nat)
      requires Sound() && h < n
      modifies this`p, this`g
      ensures Sound() && g.lists[h] == [] && p.bips.Keys == old(p).bips.Keys
      ensures g.written == old(g).written && OtherLists(old(g), g, n, h)
      ensures g.left == Grown(old(g).left, h, old(Waiting(p, g, h))) &&
              g.written[h] == old(g).left[h] + old(Waiting(p, g, h))
    {
      ghost var waiting := Waiting(p, g, h);
      GrownNone(g.left, h);
      OtherListsSame(g, n, h);
      WaitingIs(p, g, n, h);
      ghost var sent: seq<byte> := [];
      hide PoolOk, StreamsOk, TailsOk, Grown, OtherLists;
      while p.heads[h].To?
        invariant Sound() && g.written == old(g).written && OtherLists(old(g), g, n, h) &&
                  p.bips.Keys == old(p).bips.Keys
        invariant g.left == Grown(old(g).left, h, sent)
        decreases |g.lists[h]|
      {
        FirstFacts(p, g, n, h);
        ghost var g0 := g;
        GrownTwice(old(g).left, h, sent, FirstBytes(p, g, h));
        sent := sent + FirstBytes(p, g, h);
        Pop(h);
        OtherListsTwice(old(g), g0, g, n, h);
      }
      WaitingIs(p, g, n, h);
      AllGone(old(g).left, h, sent, waiting, g.written[h]);
    }
  }

  /** What was written to a chain was delivered, or dropped when the chain was closed, or is waiting, in that order. */
  lemma {:induction false} Conservation(c: Pipes, h: nat)
    requires c.Valid() && h < c.n
    ensures c.g.written[h] == c.Delivered(h) + c.dropped[h] + Waiting(c.p, c.g, h)
    ensures c.open[h] ==> c.g.written[h] == c.Delivered(h) + Waiting(c.p, c.g, h)
  {
    WaitingIs(c.p, c.g, c.n, h);
    assert Suffix(c.dropped[h], c.g.left[h]);
    assert c.g.left[h] == c.Delivered(h) + c.dropped[h];
    hide Ok;
    assert c.Delivered(h) + [] == c.Delivered(h);
  }

  /** The lists of the other chains are as they were. */
  ghost predicate OtherLists(g: Layout, g': Layout, n: nat, h: nat) {
    |g'.lists| == |g.lists| == n + 1 && forall k :: 0 <= k < n && k != h ==> g'.lists[k] == g.lists[k]
  }

  lemma {:induction false} OtherListsSame(g: Layout, n: nat, h: nat)
    requires |g.lists| == n + 1
    ensures OtherLists(g, g, n, h)
  {}

  lemma {:induction false} OtherListsTwice(a: Layout, b: Layout, c: Layout, n: nat, h: nat)
    requires OtherLists(a, b, n, h) && OtherLists(b, c, n, h)
    ensures OtherLists(a, c, n, h)
  {}

  lemma {:induction false} OtherListsLeft(a: Layout, b: Layout, c: Layout, n: nat, h: nat)
    requires OtherLists(a, b, n, h) && c.lists == b.lists
    ensures OtherLists(a, c, n, h)
  {}

  /** When nothing is left in the chain, what went is what was waiting. */
  lemma {:induction false} AllGone(left: seq<seq<byte>>, h: nat, sent: seq<byte>, waiting: seq<byte>,
                                   written: seq<byte>)
    requires h < |left| && written == left[h] + waiting && Grown(left, h, sent)[h] == written
    ensures sent == waiting
  {
    assert written[|left[h]|..] == waiting && written[|left[h]|..] == sent;
  }

  lemma {:induction false} DroppedAll(open: seq<bool>, left: seq<seq<byte>>, dropped: seq<seq<byte>>, n: nat, h: nat,
                                      waiting: seq<byte>)
    requires LossOk(open, left, dropped, n) && h < n
    ensures open[h] ==> Grown(dropped, h, waiting)[h] == waiting
  {
    assert [] + waiting == waiting;
  }

  /** What one pass of a poll loop has to do: free the first buffer, or offer bytes from it. */
  lemma {:induction false} FirstFacts(p: Pool, g: Layout, n: nat, h: nat)
    requires Ok(p, g, n, {}) && h < n && p.heads[h].To?
    ensures g.lists[h] != [] && g.lists[h][0] == p.heads[h].id && p.heads[h].id in p.bips &&
            RingOk(p.bips[p.heads[h].id].ring)
  {
    Members(p.bips, p.heads, g.owner, g.lists, {});
    FirstMember(p.bips, p.heads, g.owner, g.lists, h);
  }

  /** How far a poll is from the end. */
  ghost function Ahead(g: Layout, h: nat): int
    requires h < |g.written| && h < |g.left| && h < |g.lists|
  {
    |g.written[h]| - |g.left[h]| + |g.lists[h]|
  }

  lemma {:induction false} AheadBound(p: Pool, g: Layout, n: nat, h: nat)
    requires Ok(p, g, n, {}) && h < n
    ensures Ahead(g, h) >= 0
  {
    WaitingIs(p, g, n, h);
  }

  lemma {:induction false} GrownAt(s: seq<seq<byte>>, h: nat, more: seq<byte>)
    requires h < |s|
    ensures Grown(s, h, more)[h] == s[h] + more
  {}

  ghost predicate LastIsEmpty(p: Pool, h: nat) {
    h < |p.tails| && p.tails[h].To? && p.tails[h].id in p.bips && p.bips[p.tails[h].id].ring == EmptyRing
  }

  /** An answer outside the range offered is pulled into it. */
  function Clip(answer: int, n: nat): nat { if answer < 0 then 0 else if answer > n then n else answer }
}
