/**
 Chaining of translation blocks (exec-all.h:139-152, exec-all.h:298-333 and exec.c:747-833).

 A block has two jump slots. A patched slot jumps straight into another block, and the slots
 that jump into a block form a circular list through tagged links: tag 0 or 1 names the next
 slot, tag 2 is the block itself. Blocks are numbered; a link is a block number and a tag.
 */
module TbChain {
  import opened Common

  datatype Slot = Slot(tb: nat, n: nat)

  datatype Link = Null | To(tb: nat, tag: nat)

  /** The jump fields of all blocks. */
  datatype Jumps = Jumps(
    tcPtr: seq<int>,             // where each block's native code starts
    first: seq<Link>,            // jmp_first
    next: map<Slot, Link>,       // jmp_next[n]
    target: map<Slot, int>,      // native address each slot jumps to
    exits: map<Slot, int>)       // native address of each slot's unpatched exit

  /** What the links mean: the block each patched slot jumps to, every block's list in link
      order, and the blocks that have not been invalidated. */
  datatype Shape = Shape(owner: map<Slot, nat>, lists: seq<seq<Slot>>, live: set<nat>)

  /** The link found at position i of block b's circle: slot i, or the closing tag-2 link. */
  function LinkAt(list: seq<Slot>, i: nat, b: nat): Link
    requires i <= |list|
  {
    if i < |list| then To(list[i].tb, list[i].n) else To(b, 2)
  }

  /** The links spell out the list of block b. */
  ghost predicate Spells(j: Jumps, list: seq<Slot>, b: nat) {
    && b < |j.first| && j.first[b] == LinkAt(list, 0, b)
    && (forall s :: s in list ==> s in j.next)
    && forall i {:trigger j.next[list[i]]} :: 0 <= i < |list| ==> j.next[list[i]] == LinkAt(list, i + 1, b)
  }

  /** The list holds exactly the slots patched to b, each once. */
  ghost predicate Lists(owner: map<Slot, nat>, list: seq<Slot>, b: nat) {
    && NoDup(list)
    && forall s :: s in list <==> s in owner && owner[s] == b
  }

  /** Every block has both slots. */
  ghost predicate DomainOk(j: Jumps) {
    && (forall s :: s in j.next <==> s.tb < |j.tcPtr| && s.n < 2)
    && (forall s :: s in j.target <==> s.tb < |j.tcPtr| && s.n < 2)
    && (forall s :: s in j.exits <==> s.tb < |j.tcPtr| && s.n < 2)
  }

  /** A slot is linked exactly when it is patched, and only blocks in use are jumped to. A block that was
      invalidated while it ran may still be patched afterwards. */
  ghost predicate OwnersOk(j: Jumps, owner: map<Slot, nat>, used: set<nat>) {
    && (forall b :: b in used ==> b < |j.tcPtr|)
    && (forall s :: s in j.next ==> (j.next[s] != Null <==> s in owner))
    && (forall s :: s in owner ==> s in j.next && owner[s] in used)
  }

  /** A patched slot jumps to its owner's code, an open slot of a live block to its own exit. */
  ghost predicate NativeOk(j: Jumps, g: Shape) {
    && (forall s :: s in g.owner && s in j.target && g.owner[s] < |j.tcPtr| ==> j.target[s] == j.tcPtr[g.owner[s]])
    && (forall s :: s in j.target && s in j.exits && s.tb in g.live && s !in g.owner ==> j.target[s] == j.exits[s])
  }

  ghost predicate ListsOk(j: Jumps, g: Shape) {
    forall b :: 0 <= b < |g.lists| ==> Spells(j, g.lists[b], b) && Lists(g.owner, g.lists[b], b)
  }

  /** The invariant, allowing links of a block that is being invalidated. */
  ghost predicate OkBut(j: Jumps, g: Shape, dying: set<nat>) {
    && |j.first| == |g.lists| == |j.tcPtr|
    && DomainOk(j) && OwnersOk(j, g.owner, g.live + dying) && NativeOk(j, g) && ListsOk(j, g)
  }

  ghost predicate Ok(j: Jumps, g: Shape) { OkBut(j, g, {}) }

  // ----- what a change must keep for the other lists to survive it

  lemma {:induction false} SpellsFrame(j: Jumps, j': Jumps, list: seq<Slot>, b: nat)
    requires Spells(j, list, b) && b < |j'.first| && j'.first[b] == j.first[b]
    requires forall s :: s in list ==> s in j'.next && j'.next[s] == j.next[s]
    ensures Spells(j', list, b)
  {}

  lemma {:induction false} ListsFrame(owner: map<Slot, nat>, owner': map<Slot, nat>, list: seq<Slot>, b: nat)
    requires Lists(owner, list, b)
    requires forall s :: (s in owner && owner[s] == b) <==> (s in owner' && owner'[s] == b)
    ensures Lists(owner', list, b)
  {}

  // ----- tb_link_phys

  function LinkBlock(j: Jumps, ptr: int, exit0: int, exit1: int): Jumps {
    var (s0, s1) := (Slot(|j.tcPtr|, 0), Slot(|j.tcPtr|, 1));
    Jumps(j.tcPtr + [ptr], j.first + [To(|j.tcPtr|, 2)], j.next[s0 := Null][s1 := Null],
          j.target[s0 := exit0][s1 := exit1], j.exits[s0 := exit0][s1 := exit1])
  }

  function LinkShape(g: Shape): Shape {
    g.(lists := g.lists + [[]], live := g.live + {|g.lists|})
  }

  lemma {:induction false} LinkDomain(j: Jumps, ptr: int, exit0: int, exit1: int)
    requires DomainOk(j)
    ensures DomainOk(LinkBlock(j, ptr, exit0, exit1))
  {}

  lemma {:induction false} LinkOwners(j: Jumps, g: Shape, ptr: int, exit0: int, exit1: int)
    requires DomainOk(j) && OwnersOk(j, g.owner, g.live) && |g.lists| == |j.tcPtr|
    ensures OwnersOk(LinkBlock(j, ptr, exit0, exit1), g.owner, LinkShape(g).live)
  {}

  lemma {:induction false} LinkNative(j: Jumps, g: Shape, ptr: int, exit0: int, exit1: int)
    requires DomainOk(j) && OwnersOk(j, g.owner, g.live) && NativeOk(j, g) && |g.lists| == |j.tcPtr|
    ensures NativeOk(LinkBlock(j, ptr, exit0, exit1), LinkShape(g))
  {}

  lemma {:induction false} LinkBlockOk(j: Jumps, g: Shape, ptr: int, exit0: int, exit1: int)
    requires Ok(j, g)
    ensures Ok(LinkBlock(j, ptr, exit0, exit1), LinkShape(g))
  {
    var (j', g') := (LinkBlock(j, ptr, exit0, exit1), LinkShape(g));
    assert g.live + {} == g.live && g'.live + {} == g'.live;
    LinkDomain(j, ptr, exit0, exit1);
    LinkOwners(j, g, ptr, exit0, exit1);
    LinkNative(j, g, ptr, exit0, exit1);
    LinkLists(j, g, ptr, exit0, exit1);
    hide DomainOk, OwnersOk, NativeOk, ListsOk;
  }

  lemma {:induction false} LinkLists(j: Jumps, g: Shape, ptr: int, exit0: int, exit1: int)
    requires ListsOk(j, g) && DomainOk(j) && OwnersOk(j, g.owner, g.live) && |j.first| == |g.lists| == |j.tcPtr|
    ensures ListsOk(LinkBlock(j, ptr, exit0, exit1), LinkShape(g))
  {
    var (j', g') := (LinkBlock(j, ptr, exit0, exit1), LinkShape(g));
    forall b | 0 <= b < |g'.lists|
      ensures Spells(j', g'.lists[b], b) && Lists(g'.owner, g'.lists[b], b)
    {
      if b < |g.lists| {
        assert Spells(j, g.lists[b], b) && Lists(g.owner, g.lists[b], b);
        assert Slot(|j.tcPtr|, 0) !in g.lists[b] && Slot(|j.tcPtr|, 1) !in g.lists[b];
        SpellsFrame(j, j', g.lists[b], b);
      }
    }
  }

  // ----- tb_add_jump on an open slot

  function Patch(j: Jumps, s: Slot, b: nat): Jumps
    requires b < |j.first| && b < |j.tcPtr|
  {
    j.(target := j.target[s := j.tcPtr[b]], next := j.next[s := j.first[b]], first := j.first[b := To(s.tb, s.n)])
  }

  function PatchShape(g: Shape, s: Slot, b: nat): Shape
    requires b < |g.lists|
  {
    g.(owner := g.owner[s := b], lists := g.lists[b := [s] + g.lists[b]])
  }

  lemma {:induction false} PatchSlots(j: Jumps, g: Shape, s: Slot, b: nat)
    requires DomainOk(j) && OwnersOk(j, g.owner, g.live) && NativeOk(j, g)
    requires s.tb < |j.tcPtr| && s.n < 2 && b in g.live && s !in g.owner
    requires b < |j.first| && b < |g.lists| && j.first[b] != Null
    ensures var (j', g') := (Patch(j, s, b), PatchShape(g, s, b));
            DomainOk(j') && OwnersOk(j', g'.owner, g'.live) && NativeOk(j', g')
  {}

  lemma {:induction false} PatchList(j: Jumps, owner: map<Slot, nat>, list: seq<Slot>, s: Slot, b: nat)
    requires Spells(j, list, b) && Lists(owner, list, b) && s !in owner && b < |j.tcPtr|
    ensures Spells(Patch(j, s, b), [s] + list, b) && Lists(owner[s := b], [s] + list, b)
  {
    var list' := [s] + list;
    forall i | 0 <= i < |list'|
      ensures list'[i] in Patch(j, s, b).next && Patch(j, s, b).next[list'[i]] == LinkAt(list', i + 1, b)
    {
      if i > 0 { assert list'[i] == list[i - 1]; }
    }
    forall t ensures t in list' <==> t == s || t in list {}
  }

  lemma {:induction false} PatchKeeps(j: Jumps, owner: map<Slot, nat>, list: seq<Slot>, c: nat, s: Slot, b: nat)
    requires Spells(j, list, c) && Lists(owner, list, c) && s !in owner && b != c && b < |j.first| && b < |j.tcPtr|
    ensures Spells(Patch(j, s, b), list, c) && Lists(owner[s := b], list, c)
  {
    SpellsFrame(j, Patch(j, s, b), list, c);
    ListsFrame(owner, owner[s := b], list, c);
  }

  lemma {:induction false} PatchListsOk(j: Jumps, g: Shape, s: Slot, b: nat)
    requires ListsOk(j, g) && s !in g.owner && b < |g.lists| && b < |j.first| && b < |j.tcPtr|
    ensures ListsOk(Patch(j, s, b), PatchShape(g, s, b))
  {
    var (j', g') := (Patch(j, s, b), PatchShape(g, s, b));
    assert Spells(j, g.lists[b], b) && Lists(g.owner, g.lists[b], b);
    PatchList(j, g.owner, g.lists[b], s, b);
    hide Spells, Lists, Patch;
    forall c | 0 <= c < |g'.lists|
      ensures Spells(j', g'.lists[c], c) && Lists(g'.owner, g'.lists[c], c)
    {
      if c != b { PatchKeeps(j, g.owner, g.lists[c], c, s, b); }
    }
  }

  lemma {:induction false} PatchOk(j: Jumps, g: Shape, s: Slot, b: nat)
    requires Ok(j, g) && s.tb < |j.tcPtr| && s.n < 2 && b in g.live && s !in g.owner
    ensures Ok(Patch(j, s, b), PatchShape(g, s, b))
  {
    assert g.live + {} == g.live;
    assert Spells(j, g.lists[b], b);
    PatchSlots(j, g, s, b);
    PatchListsOk(j, g, s, b);
    hide OwnersOk, NativeOk, DomainOk, ListsOk;
  }

  // ----- tb_jmp_remove

  /** The place a link is stored in: what the C code holds as a TranslationBlock **. */
  datatype Place = FirstOf(tb: nat) | NextOf(s: Slot)

  predicate InPlace(j: Jumps, p: Place) { if p.FirstOf? then p.tb < |j.first| else p.s in j.next }

  function Read(j: Jumps, p: Place): Link
    requires InPlace(j, p)
  {
    if p.FirstOf? then j.first[p.tb] else j.next[p.s]
  }

  function Write(j: Jumps, p: Place, link: Link): Jumps
    requires InPlace(j, p)
  {
    if p.FirstOf? then j.(first := j.first[p.tb := link]) else j.(next := j.next[p.s := link])
  }

  /** The place whose link names position i of the circle of block b. */
  function PlaceAt(list: seq<Slot>, i: nat, b: nat): Place
    requires i <= |list|
  {
    if i == 0 then FirstOf(b) else NextOf(list[i - 1])
  }

  lemma {:induction false} ReadPlaceAt(j: Jumps, list: seq<Slot>, b: nat, i: nat)
    requires Spells(j, list, b) && i <= |list|
    ensures InPlace(j, PlaceAt(list, i, b)) && Read(j, PlaceAt(list, i, b)) == LinkAt(list, i, b)
  {}

  /** Take position i out of the circle: its predecessor's link skips it, and its own is cleared. */
  function Unlink(j: Jumps, list: seq<Slot>, i: nat, b: nat): Jumps
    requires i < |list| && list[i] in j.next && InPlace(j, PlaceAt(list, i, b))
  {
    var k := Write(j, PlaceAt(list, i, b), j.next[list[i]]);
    k.(next := k.next[list[i] := Null])
  }

  lemma {:induction false} WithoutAt(list: seq<Slot>, i: nat, k: nat)
    requires i < |list| && k < |list| - 1
    ensures Without(list, i)[k] == list[if k < i then k else k + 1]
  {}

  /** After the removal every other slot of the circle still names its successor, skipping position i. */
  lemma {:induction false} UnlinkReads(j: Jumps, list: seq<Slot>, i: nat, b: nat, k: nat)
    requires Spells(j, list, b) && NoDup(list) && i < |list| && k < |list| && k != i
    requires InPlace(j, PlaceAt(list, i, b))
    ensures var j' := Unlink(j, list, i, b);
            list[k] in j'.next && j'.next[list[k]] == LinkAt(list, if k + 1 == i then i + 1 else k + 1, b)
  {}

  lemma {:induction false} LinkAtWithout(list: seq<Slot>, i: nat, b: nat, k: nat)
    requires i < |list| && k < |list|
    ensures LinkAt(Without(list, i), k, b) == LinkAt(list, if k < i then k else k + 1, b)
  {}

  lemma {:induction false} UnlinkSpells(j: Jumps, list: seq<Slot>, i: nat, b: nat)
    requires Spells(j, list, b) && NoDup(list) && i < |list|
    ensures InPlace(j, PlaceAt(list, i, b)) && Spells(Unlink(j, list, i, b), Without(list, i), b)
  {
    ReadPlaceAt(j, list, b, i);
    var (j', list') := (Unlink(j, list, i, b), Without(list, i));
    LinkAtWithout(list, i, b, 0);
    assert j'.first[b] == LinkAt(list', 0, b);
    forall k | 0 <= k < |list'|
      ensures list'[k] in j'.next && j'.next[list'[k]] == LinkAt(list', k + 1, b)
    {
      WithoutAt(list, i, k);
      LinkAtWithout(list, i, b, k + 1);
      UnlinkReads(j, list, i, b, if k < i then k else k + 1);
    }
  }

  lemma {:induction false} UnlinkLists(owner: map<Slot, nat>, list: seq<Slot>, i: nat, b: nat)
    requires Lists(owner, list, b) && i < |list|
    ensures Lists(owner - {list[i]}, Without(list, i), b)
  {
    var list' := Without(list, i);
    forall t ensures t in list' <==> t in list && t != list[i] {
      if t in list && t != list[i] {
        var k :| 0 <= k < |list| && list[k] == t;
        assert list'[if k < i then k else k - 1] == t;
      }
    }
  }

  function UnlinkShape(g: Shape, b: nat, i: nat): Shape
    requires b < |g.lists| && i < |g.lists[b]|
  {
    g.(owner := g.owner - {g.lists[b][i]}, lists := g.lists[b := Without(g.lists[b], i)])
  }

  lemma {:induction false} OtherList(owner: map<Slot, nat>, list: seq<Slot>, b: nat, other: seq<Slot>, c: nat)
    requires Lists(owner, list, b) && Lists(owner, other, c) && b != c
    ensures forall s :: s in list ==> s !in other
  {}

  lemma {:induction false} UnlinkKeeps(j: Jumps, owner: map<Slot, nat>, list: seq<Slot>, i: nat, b: nat,
                                       other: seq<Slot>, c: nat)
    requires Spells(j, list, b) && Lists(owner, list, b) && i < |list| && InPlace(j, PlaceAt(list, i, b))
    requires Spells(j, other, c) && Lists(owner, other, c) && b != c
    ensures Spells(Unlink(j, list, i, b), other, c) && Lists(owner - {list[i]}, other, c)
  {
    OtherList(owner, list, b, other, c);
    assert list[i] in list && (i > 0 ==> list[i - 1] in list);
    SpellsFrame(j, Unlink(j, list, i, b), other, c);
    ListsFrame(owner, owner - {list[i]}, other, c);
  }

  lemma {:induction false} UnlinkListsOk(j: Jumps, g: Shape, b: nat, i: nat)
    requires ListsOk(j, g) && b < |g.lists| && i < |g.lists[b]|
    ensures InPlace(j, PlaceAt(g.lists[b], i, b)) && g.lists[b][i] in j.next
    ensures ListsOk(Unlink(j, g.lists[b], i, b), UnlinkShape(g, b, i))
  {
    assert Spells(j, g.lists[b], b) && Lists(g.owner, g.lists[b], b);
    UnlinkSpells(j, g.lists[b], i, b);
    UnlinkLists(g.owner, g.lists[b], i, b);
    var (j', g') := (Unlink(j, g.lists[b], i, b), UnlinkShape(g, b, i));
    hide Spells, Lists, Unlink;
    forall c | 0 <= c < |g'.lists|
      ensures Spells(j', g'.lists[c], c) && Lists(g'.owner, g'.lists[c], c)
    {
      if c != b { UnlinkKeeps(j, g.owner, g.lists[b], i, b, g.lists[c], c); }
    }
  }

  lemma {:induction false} UnlinkOk(j: Jumps, g: Shape, dying: set<nat>, b: nat, i: nat)
    requires OkBut(j, g, dying) && b < |g.lists| && i < |g.lists[b]| && g.lists[b][i].tb !in g.live
    ensures InPlace(j, PlaceAt(g.lists[b], i, b)) && g.lists[b][i] in j.next
    ensures OkBut(Unlink(j, g.lists[b], i, b), UnlinkShape(g, b, i), dying)
  {
    UnlinkListsOk(j, g, b, i);
    UnlinkSlots(j, g, dying, b, i);
    hide OwnersOk, NativeOk, DomainOk, ListsOk;
  }

  lemma {:induction false} UnlinkSlots(j: Jumps, g: Shape, dying: set<nat>, b: nat, i: nat)
    requires OkBut(j, g, dying) && b < |g.lists| && i < |g.lists[b]| && g.lists[b][i].tb !in g.live
    requires g.lists[b][i] in j.next && InPlace(j, PlaceAt(g.lists[b], i, b))
    ensures var (j', g') := (Unlink(j, g.lists[b], i, b), UnlinkShape(g, b, i));
            DomainOk(j') && OwnersOk(j', g'.owner, g'.live + dying) && NativeOk(j', g')
  {
    var list := g.lists[b];
    assert Spells(j, list, b) && Lists(g.owner, list, b);
    assert list[i] in list && list[i] in g.owner;
    if i > 0 { assert list[i - 1] in list && list[i - 1] in g.owner && list[i - 1] != list[i]; }
    UnlinkOwners(j, g.owner, g.live + dying, list, i, b);
    UnlinkNative(j, g, list, i, b);
  }

  lemma {:induction false} UnlinkOwners(j: Jumps, owner: map<Slot, nat>, used: set<nat>, list: seq<Slot>, i: nat,
                                        b: nat)
    requires DomainOk(j) && OwnersOk(j, owner, used) && i < |list| && list[i] in j.next && list[i] in owner
    requires i > 0 ==> list[i - 1] in j.next && list[i - 1] in owner && list[i - 1] != list[i]
    requires b < |j.first|
    ensures DomainOk(Unlink(j, list, i, b)) && OwnersOk(Unlink(j, list, i, b), owner - {list[i]}, used)
  {}

  lemma {:induction false} UnlinkNative(j: Jumps, g: Shape, list: seq<Slot>, i: nat, b: nat)
    requires NativeOk(j, g) && i < |list| && list[i] in j.next && list[i].tb !in g.live
    requires InPlace(j, PlaceAt(list, i, b))
    ensures NativeOk(Unlink(j, list, i, b), g.(owner := g.owner - {list[i]}))
  {}

  // ----- the end of tb_phys_invalidate: open every slot that jumps to the block

  function Clear(j: Jumps, slots: set<Slot>): Jumps {
    j.(next := map s | s in j.next :: if s in slots then Null else j.next[s],
       target := map s | s in j.target :: if s in slots && s in j.exits then j.exits[s] else j.target[s])
  }

  ghost function JumpersTo(g: Shape, b: nat): set<Slot> { set s | s in g.owner && g.owner[s] == b }

  function Ended(j: Jumps, slots: set<Slot>, b: nat): Jumps
    requires b < |j.first|
  {
    Clear(j, slots).(first := j.first[b := To(b, 2)])
  }

  ghost function EndShape(g: Shape, b: nat): Shape
    requires b < |g.lists|
  {
    g.(owner := g.owner - JumpersTo(g, b), lists := g.lists[b := []])
  }

  lemma {:induction false} EndSlots(j: Jumps, g: Shape, b: nat)
    requires DomainOk(j) && OwnersOk(j, g.owner, g.live + {b}) && NativeOk(j, g)
    requires b !in g.live && b < |j.first| && b < |g.lists| && forall s :: s in g.owner ==> s.tb != b
    ensures var (j', g') := (Ended(j, JumpersTo(g, b), b), EndShape(g, b));
            DomainOk(j') && OwnersOk(j', g'.owner, g'.live) && NativeOk(j', g')
  {
    EndNative(j, g, b);
    EndDomain(j, g, b);
    hide NativeOk, DomainOk;
    EndOwners(j, g, b);
    hide OwnersOk;
  }

  lemma {:induction false} EndDomain(j: Jumps, g: Shape, b: nat)
    requires DomainOk(j) && b < |j.first|
    ensures DomainOk(Ended(j, JumpersTo(g, b), b))
  {}

  lemma {:induction false} EndOwners(j: Jumps, g: Shape, b: nat)
    requires OwnersOk(j, g.owner, g.live + {b}) && b < |j.first| && b < |g.lists|
    ensures OwnersOk(Ended(j, JumpersTo(g, b), b), EndShape(g, b).owner, g.live)
  {}

  lemma {:induction false} EndNative(j: Jumps, g: Shape, b: nat)
    requires DomainOk(j) && NativeOk(j, g) && b < |j.first| && b < |g.lists|
    ensures NativeOk(Ended(j, JumpersTo(g, b), b), EndShape(g, b))
  {}

  lemma {:induction false} EndListsOk(j: Jumps, g: Shape, b: nat)
    requires ListsOk(j, g) && b < |j.first| == |g.lists|
    ensures ListsOk(Ended(j, JumpersTo(g, b), b), EndShape(g, b))
  {
    var (j', g') := (Ended(j, JumpersTo(g, b), b), EndShape(g, b));
    forall c | 0 <= c < |g'.lists|
      ensures Spells(j', g'.lists[c], c) && Lists(g'.owner, g'.lists[c], c)
    {
      assert Spells(j, g.lists[c], c) && Lists(g.owner, g.lists[c], c);
      if c != b {
        SpellsFrame(j, j', g.lists[c], c);
        ListsFrame(g.owner, g'.owner, g.lists[c], c);
      }
    }
  }

  lemma {:induction false} EndOk(j: Jumps, g: Shape, b: nat)
    requires OkBut(j, g, {b}) && b !in g.live && b < |g.lists| && forall s :: s in g.owner ==> s.tb != b
    ensures Ok(Ended(j, JumpersTo(g, b), b), EndShape(g, b))
  {
    EndSlots(j, g, b);
    EndListsOk(j, g, b);
    assert EndShape(g, b).live + {} == EndShape(g, b).live;
    hide OwnersOk, NativeOk, DomainOk, ListsOk;
  }

  // ----- tb_free

  function Freed(j: Jumps, n: nat): Jumps
    requires n < |j.tcPtr| && n < |j.first|
  {
    var slots := {Slot(n, 0), Slot(n, 1)};
    Jumps(j.tcPtr[..n], j.first[..n], j.next - slots, j.target - slots, j.exits - slots)
  }

  lemma {:induction false} FreeOk(j: Jumps, g: Shape, n: nat)
    requires Ok(j, g) && n + 1 == |j.tcPtr| && n !in g.live && forall s :: s in g.owner ==> s.tb != n
    ensures Ok(Freed(j, n), g.(lists := g.lists[..n]))
  {
    var (j', g') := (Freed(j, n), g.(lists := g.lists[..n]));
    assert g.live + {} == g.live;
    hide Spells, Lists;
    forall b | 0 <= b < |g'.lists| ensures Spells(j', g'.lists[b], b) && Lists(g'.owner, g'.lists[b], b) {
      assert Spells(j, g.lists[b], b) && Lists(g.owner, g.lists[b], b);
      FreeKeeps(j, g.owner, g.lists[b], b, n);
    }
    hide ListsOk;
    FreeSlots(j, g, n);
    FreeNative(j, g, g', n);
    hide DomainOk, OwnersOk, NativeOk;
  }

  lemma {:induction false} FreeKeeps(j: Jumps, owner: map<Slot, nat>, list: seq<Slot>, b: nat, n: nat)
    requires Spells(j, list, b) && Lists(owner, list, b) && b < n < |j.tcPtr| && n < |j.first|
    requires forall s :: s in owner ==> s.tb != n
    ensures Spells(Freed(j, n), list, b)
  {
    SpellsFrame(j, Freed(j, n), list, b);
  }

  lemma {:induction false} FreeSlots(j: Jumps, g: Shape, n: nat)
    requires DomainOk(j) && OwnersOk(j, g.owner, g.live) && n + 1 == |j.tcPtr| && n < |j.first|
    requires n !in g.live && forall s :: s in g.owner ==> s.tb != n
    ensures DomainOk(Freed(j, n)) && OwnersOk(Freed(j, n), g.owner, g.live)
  {}

  lemma {:induction false} FreeNative(j: Jumps, g: Shape, g': Shape, n: nat)
    requires NativeOk(j, g) && n + 1 == |j.tcPtr| && n < |j.first| && g'.owner == g.owner && g'.live == g.live
    ensures NativeOk(Freed(j, n), g')
  {}

  // ----- the operations on the tables

  class JumpTables {
    var j: Jumps
    ghost var g: Shape

    ghost predicate Valid()
      reads this
    {
      Ok(j, g)
    }

    constructor ()
      ensures Valid() && j.tcPtr == [] && g == Shape(map[], [], {})
    {
      j := Jumps([], [], map[], map[], map[]);
      g := Shape(map[], [], {});
    }

    /** tb_link_phys on the jump fields: a new block with both slots open and an empty list. */
    method Link(ptr: int, exit0: int, exit1: int) returns (tb: nat)
      requires Valid()
      modifies this
      ensures Valid() && tb == |old(j.tcPtr)| && j == LinkBlock(old(j), ptr, exit0, exit1)
      ensures g.owner == old(g.owner) && g.live == old(g.live) + {tb}
    {
      LinkBlockOk(j, g, ptr, exit0, exit1);
      tb := |j.tcPtr|;
      j := LinkBlock(j, ptr, exit0, exit1);
      g := LinkShape(g);
    }

    /** tb_flush: every block is forgotten. */
    method Flush()
      modifies this
      ensures Valid() && j.tcPtr == [] && g == Shape(map[], [], {})
    {
      j := Jumps([], [], map[], map[], map[]);
      g := Shape(map[], [], {});
    }

    /** tb_add_jump: index 2 reads jmp_first, which is never null, so it patches nothing. */
    method AddJump(tb: nat, n: nat, next: nat)
      requires Valid() && tb < |j.tcPtr| && next in g.live && n <= 2
      modifies this
      ensures Valid() && g.live == old(g.live) && j.tcPtr == old(j.tcPtr) && j.exits == old(j.exits)
      ensures g.owner == if n < 2 && Slot(tb, n) !in old(g.owner) then old(g.owner)[Slot(tb, n) := next]
                         else old(g.owner)
    {
      assert Spells(j, g.lists[tb], tb);
      hide Spells, Lists;
      var s := Slot(tb, n);
      var link := if n == 2 then j.first[tb] else j.next[s];
      if link == Null {
        PatchOk(j, g, s, next);
        g := PatchShape(g, s, next);
        j := j.(target := j.target[s := j.tcPtr[next]]);
        j := j.(next := j.next[s := j.first[next]]);
        j := j.(first := j.first[next := To(tb, n)]);
      }
    }

    /** Follow jmp_first and jmp_next from a block, as the last loop of tb_phys_invalidate does. */
    method Walk(b: nat) returns (slots: seq<Slot>)
      requires Valid() && b < |j.tcPtr|
      ensures slots == g.lists[b] && NoDup(slots)
      ensures forall s :: s in slots <==> s in g.owner && g.owner[s] == b
    {
      hide OkBut;
      ListFacts(j, g, {}, b);
      ghost var list := g.lists[b];
      slots := [];
      var link := j.first[b];
      assert link == LinkAt(list, 0, b);
      hide Spells;
      while link.tag != 2
        invariant |slots| <= |list| && slots == list[..|slots|] && link == LinkAt(list, |slots|, b)
        decreases |list| - |slots|
      {
        ghost var s := list[|slots|];
        assert link == To(s.tb, s.n);
        FollowLink(j, list, b, |slots|);
        slots := slots + [Slot(link.tb, link.tag)];
        link := j.next[Slot(link.tb, link.tag)];
      }
    }

    /** tb_jmp_remove: find the link that names the slot and cut the slot out of the circle. */
    method JmpRemove(tb: nat, n: nat, ghost dying: set<nat>)
      requires OkBut(j, g, dying) && tb < |j.tcPtr| && tb !in g.live && n < 2
      modifies this
      ensures OkBut(j, g, dying) && g.owner == old(g.owner) - {Slot(tb, n)} && g.live == old(g.live)
      ensures j.tcPtr == old(j.tcPtr) && j.exits == old(j.exits) && j.target == old(j.target)
    {
      var s := Slot(tb, n);
      SlotFacts(j, g, dying, s);
      hide OkBut;
      if j.next[s] != Null {
        ghost var b := g.owner[s];
        ghost var i := Position(j, g, dying, s);
        UnlinkOk(j, g, dying, b, i);
        hide Spells, NoDup, Unlink;
        var ptb := FindLink(j, s, g.lists[b], b, i);
        CutIsUnlink(j, g.lists[b], i, b);
        j := Write(j, ptb, j.next[s]);
        j := j.(next := j.next[s := Null]);
        g := UnlinkShape(g, b, i);
      } else {
        assert g.owner - {s} == g.owner;
      }
    }

    /** The part of tb_phys_invalidate after the block's own slots are out of their lists. */
    method OpenAll(tb: nat)
      requires OkBut(j, g, {tb}) && tb !in g.live && tb < |j.tcPtr| && forall s :: s in g.owner ==> s.tb != tb
      modifies this
      ensures Valid() && g.live == old(g.live) && j.tcPtr == old(j.tcPtr) && j.exits == old(j.exits)
      ensures g.owner == old(g.owner) - JumpersTo(old(g), tb)
      ensures TargetsFollow(old(j), j, old(g.owner), g.owner)
    {
      hide OkBut;
      ListFacts(j, g, {tb}, tb);
      EndOk(j, g, tb);
      ExitsKnown(j, g, {tb});
      assert SlotSet(g.lists[tb]) == JumpersTo(g, tb);
      hide Spells, Lists, JumpersTo;
      ClearTargets(j, g.owner, JumpersTo(g, tb));
      j := OpenJumpers(j, tb, g.lists[tb]);
      j := j.(first := j.first[tb := To(tb, 2)]);
      g := EndShape(g, tb);
    }

    /** tb_phys_invalidate on the jump fields: the block jumps nowhere and nothing jumps to it. */
    method Invalidate(tb: nat)
      requires Valid() && tb in g.live
      modifies this
      ensures Valid() && g.live == old(g.live) - {tb} && j.tcPtr == old(j.tcPtr) && j.exits == old(j.exits)
      ensures g.owner == map s | s in old(g.owner) && s.tb != tb && old(g.owner)[s] != tb :: old(g.owner)[s]
      ensures TargetsOpened(old(j), j, old(g.owner), tb)
    {
      hide OkBut;
      DyingOk(j, g, tb);
      OwnerDomain(j, g, {});
      g := g.(live := g.live - {tb});
      JmpRemove(tb, 0, {tb});
      JmpRemove(tb, 1, {tb});
      assert forall s :: s in g.owner ==> s.tb != tb;
      ghost var mid := g.owner;
      OpenAll(tb);
      OpenedTargets(old(j), j, old(g.owner), mid, g.owner, tb);
    }

    /** tb_phys_invalidate on the jump fields of every block of a list. */
    method InvalidateAll(killed: seq<nat>)
      requires Valid() && (forall i :: 0 <= i < |killed| ==> killed[i] in g.live) && NoDup(killed)
      modifies this
      ensures Valid() && g.live == old(g.live) - Gone(killed) && j.tcPtr == old(j.tcPtr) && j.exits == old(j.exits)
      ensures g.owner == OwnerAfter(old(g.owner), killed) && TargetsAfter(old(j), j, old(g.owner), killed)
    {
      hide OkBut, OwnerAfter, TargetsAfter, TargetsOpened;
      NothingKilled(j, g.owner);
      var n := 0;
      while n < |killed|
        invariant n <= |killed| && Valid() && g.live == old(g.live) - Gone(killed[..n])
        invariant j.tcPtr == old(j.tcPtr) && j.exits == old(j.exits) && g.owner == OwnerAfter(old(g.owner), killed[..n])
        invariant TargetsAfter(old(j), j, old(g.owner), killed[..n])
      {
        ghost var j1 := j;
        assert killed[n] !in killed[..n] && killed[..n + 1] == killed[..n] + [killed[n]];
        Invalidate(killed[n]);
        OneMoreKilled(old(j), j1, j, old(g.owner), killed[..n], killed[n]);
        n := n + 1;
      }
      assert killed[..n] == killed;
    }

    /** tb_free: the newest block leaves the array, any other stays. */
    method Free(tb: nat)
      requires Valid() && tb < |j.tcPtr| && tb !in g.live && forall s :: s in g.owner ==> s.tb != tb
      modifies this
      ensures Valid() && g.owner == old(g.owner) && g.live == old(g.live)
      ensures j.tcPtr == if tb + 1 == |old(j.tcPtr)| then old(j.tcPtr)[..tb] else old(j.tcPtr)
    {
      if tb + 1 == |j.tcPtr| {
        FreeOk(j, g, tb);
        j := Freed(j, tb);
        g := g.(lists := g.lists[..tb]);
      }
    }

    /** tb_reset_jump_recursive: unchain the block and every block it could have jumped on to. */
    method ResetRecursive(tb: nat)
      requires Valid() && tb < |j.tcPtr|
      modifies this
      ensures Valid() && g.live == old(g.live) && j.tcPtr == old(j.tcPtr) && j.exits == old(j.exits)
      ensures Unchained(old(g.owner), g.owner) && Slot(tb, 0) !in g.owner && Slot(tb, 1) !in g.owner
      ensures OpenedFrom(old(g.owner), g.owner, tb) && TargetsFollow(old(j), j, old(g.owner), g.owner)
      ensures Slot(tb, 0) !in old(g.owner) && Slot(tb, 1) !in old(g.owner) ==> j == old(j)
      decreases |g.owner|, 1
    {
      hide OkBut, Unchained, OpenedFrom, TargetsFollow;
      ResetSlot(tb, 0);
      ghost var (mid, j1) := (g.owner, j);
      FewerOwners(old(g.owner), mid);
      ResetSlot(tb, 1);
      UnchainedTwice(old(g.owner), mid, g.owner);
      FewerOwners(mid, g.owner);
      TargetsTwice(old(j), j1, j, old(g.owner), mid, g.owner);
      OpenedTwice(old(g.owner), mid, g.owner, tb);
    }

    /** tb_reset_jump_recursive2. */
    method ResetSlot(tb: nat, n: nat)
      requires Valid() && tb < |j.tcPtr| && n < 2
      modifies this
      ensures Valid() && g.live == old(g.live) && j.tcPtr == old(j.tcPtr) && j.exits == old(j.exits)
      ensures Unchained(old(g.owner), g.owner) && Slot(tb, n) !in g.owner
      ensures OpenedFrom(old(g.owner), g.owner, tb) && TargetsFollow(old(j), j, old(g.owner), g.owner)
      ensures Slot(tb, n) !in old(g.owner) ==> j == old(j) && g == old(g)
      decreases |g.owner|, 0
    {
      var s := Slot(tb, n);
      KnownSlot(j, g, s);
      TargetsStay(j, g.owner);
      hide OkBut, Unchained, OpenedFrom, TargetsFollow;
      if j.next[s] == Null {
        NothingUnchained(g.owner, tb);
        return;
      }
      var next := CutSlot(tb, n);
      ghost var (mid, j1) := (g.owner, j);
      OwnerShrinks(old(g.owner), s);
      ResetRecursive(next);
      FewerOwners(mid, g.owner);
      TargetsTwice(old(j), j1, j, old(g.owner), mid, g.owner);
      UnchainedMore(old(g.owner), s, g.owner);
      OpenedMore(old(g.owner), s, g.owner);
    }

    /** One patched slot out of its list, its native jump reset: the body of tb_reset_jump_recursive2. */
    method CutSlot(tb: nat, n: nat) returns (next: nat)
      requires Valid() && tb < |j.tcPtr| && Slot(tb, n) in g.owner && n < 2
      modifies this
      ensures Valid() && g.live == old(g.live) && j.tcPtr == old(j.tcPtr) && j.exits == old(j.exits)
      ensures next == old(g.owner)[Slot(tb, n)] && next in g.live && g.owner == old(g.owner) - {Slot(tb, n)}
      ensures TargetsFollow(old(j), j, old(g.owner), g.owner)
    {
      var s := Slot(tb, n);
      KnownSlot(j, g, s);
      hide OkBut;
      ghost var b := g.owner[s];
      ghost var i := Position(j, g, {}, s);
      UnchainOk(j, g, b, i);
      hide Spells, NoDup, Unlink;
      next := FindOwner(j, s, g.lists[b], b, i);
      var ptb := FindFromHead(j, s, g.lists[b], next, i);
      CutIsUnlink(j, g.lists[b], i, b);
      j := Write(j, ptb, j.next[s]);
      j := j.(next := j.next[s := Null]);
      j := j.(target := j.target[s := j.exits[s]]);
      g := UnlinkShape(g, b, i);
      SlotTargets(old(j), j, old(g.owner), s);
    }
  }

  /** The native jump of every slot that left the map is reset, and every other one is as it was. */
  ghost predicate TargetsFollow(j: Jumps, j': Jumps, was: map<Slot, nat>, now: map<Slot, nat>) {
    forall s :: s in j.target && s in j.exits ==>
      s in j'.target && j'.target[s] == if s in was && s !in now then j.exits[s] else j.target[s]
  }

  /** The native jumps of the other blocks into tb are reset, and every other one is as it was. */
  ghost predicate TargetsOpened(j: Jumps, j': Jumps, owner: map<Slot, nat>, tb: nat) {
    forall s :: s in j.target && s in j.exits ==>
      s in j'.target && j'.target[s] == if s in owner && owner[s] == tb && s.tb != tb then j.exits[s] else j.target[s]
  }

  function Gone(killed: seq<nat>): set<nat> { set k | k in killed }

  /** What is still patched once the blocks of a list are invalidated. */
  ghost function OwnerAfter(owner: map<Slot, nat>, killed: seq<nat>): map<Slot, nat> {
    map s | s in owner && s.tb !in killed && owner[s] !in killed :: owner[s]
  }

  /** The block the slot jumps to was invalidated while the slot's own block was not yet. */
  ghost predicate OpenedBy(owner: map<Slot, nat>, killed: seq<nat>, s: Slot) {
    s in owner && exists i :: 0 <= i < |killed| && killed[i] == owner[s] && s.tb !in killed[..i + 1]
  }

  ghost predicate TargetsAfter(j: Jumps, j': Jumps, owner: map<Slot, nat>, killed: seq<nat>) {
    forall s :: s in j.target && s in j.exits ==>
      s in j'.target && j'.target[s] == if OpenedBy(owner, killed, s) then j.exits[s] else j.target[s]
  }

  lemma {:induction false} NothingKilled(j: Jumps, owner: map<Slot, nat>)
    ensures OwnerAfter(owner, []) == owner && TargetsAfter(j, j, owner, [])
  {}

  lemma {:induction false} OpenedByMore(owner: map<Slot, nat>, killed: seq<nat>, k: nat, s: Slot)
    requires k !in killed
    ensures OpenedBy(owner, killed + [k], s) <==>
              OpenedBy(owner, killed, s) || (s in OwnerAfter(owner, killed) && owner[s] == k && s.tb != k)
  {
    var more := killed + [k];
    if s in owner {
      forall i | 0 <= i < |killed| ensures more[i] == killed[i] && more[..i + 1] == killed[..i + 1] {}
      assert more[..|killed| + 1] == more && more[|killed|] == k;
      if OpenedBy(owner, more, s) {
        var i :| 0 <= i < |more| && more[i] == owner[s] && s.tb !in more[..i + 1];
        if i < |killed| { assert killed[i] == owner[s] && s.tb !in killed[..i + 1]; }
      }
      if OpenedBy(owner, killed, s) {
        var i :| 0 <= i < |killed| && killed[i] == owner[s] && s.tb !in killed[..i + 1];
        assert more[i] == owner[s] && s.tb !in more[..i + 1];
      }
    }
  }

  lemma {:induction false} OneMoreKilled(j: Jumps, j1: Jumps, j2: Jumps, owner: map<Slot, nat>, killed: seq<nat>,
                                         k: nat)
    requires TargetsAfter(j, j1, owner, killed) && TargetsOpened(j1, j2, OwnerAfter(owner, killed), k)
    requires j1.exits == j.exits && k !in killed
    ensures TargetsAfter(j, j2, owner, killed + [k])
    ensures var mid := OwnerAfter(owner, killed);
            OwnerAfter(owner, killed + [k]) == map s | s in mid && s.tb != k && mid[s] != k :: mid[s]
  {
    hide OpenedBy;
    forall s | s in j.target && s in j.exits
      ensures s in j2.target && j2.target[s] == if OpenedBy(owner, killed + [k], s) then j.exits[s] else j.target[s]
    {
      OpenedByMore(owner, killed, k, s);
    }
  }

  lemma {:induction false} ClearTargets(j: Jumps, owner: map<Slot, nat>, slots: set<Slot>)
    requires forall s :: s in slots ==> s in owner
    ensures TargetsFollow(j, Clear(j, slots), owner, owner - slots)
  {}

  lemma {:induction false} OpenedTargets(j: Jumps, j': Jumps, owner: map<Slot, nat>, mid: map<Slot, nat>,
                                         now: map<Slot, nat>, tb: nat)
    requires TargetsFollow(j, j', mid, now) && mid == owner - {Slot(tb, 0)} - {Slot(tb, 1)}
    requires forall s :: s in owner ==> s.n < 2
    requires forall s :: s in mid ==> (s in now <==> mid[s] != tb)
    ensures TargetsOpened(j, j', owner, tb)
  {
    assert forall s :: s in mid <==> s in owner && s.tb != tb;
  }

  lemma {:induction false} TargetsStay(j: Jumps, owner: map<Slot, nat>)
    ensures TargetsFollow(j, j, owner, owner)
  {}

  lemma {:induction false} SlotTargets(j: Jumps, j': Jumps, owner: map<Slot, nat>, s: Slot)
    requires s in owner && s in j.exits && j'.target == j.target[s := j.exits[s]]
    ensures TargetsFollow(j, j', owner, owner - {s})
  {}

  lemma {:induction false} TargetsTwice(j: Jumps, j1: Jumps, j2: Jumps, was: map<Slot, nat>, mid: map<Slot, nat>,
                                        now: map<Slot, nat>)
    requires TargetsFollow(j, j1, was, mid) && TargetsFollow(j1, j2, mid, now) && j1.exits == j.exits
    requires (forall s :: s in mid ==> s in was) && forall s :: s in now ==> s in mid
    ensures TargetsFollow(j, j2, was, now)
  {}

  lemma {:induction false} NothingUnchained(owner: map<Slot, nat>, tb: nat)
    ensures Unchained(owner, owner) && OpenedFrom(owner, owner, tb)
  {}

  /** Direct jumps lead from a to b. */
  ghost predicate Leads(owner: map<Slot, nat>, a: nat, b: nat) {
    exists path :: Route(owner, path, a, b)
  }

  ghost predicate Route(owner: map<Slot, nat>, path: seq<nat>, a: nat, b: nat) {
    |path| > 0 && path[0] == a && path[|path| - 1] == b && JumpPath(owner, path)
  }

  /** Only slots of blocks that direct jumps lead to from tb were opened. */
  ghost predicate OpenedFrom(was: map<Slot, nat>, now: map<Slot, nat>, tb: nat) {
    forall s :: s in was && s !in now ==> Leads(was, tb, s.tb)
  }

  lemma {:induction false} LeadsNowhere(owner: map<Slot, nat>, a: nat)
    ensures Leads(owner, a, a)
  {
    assert Route(owner, [a], a, a);
  }

  /** More patched slots lead further. */
  lemma {:induction false} LeadsMore(small: map<Slot, nat>, big: map<Slot, nat>, a: nat, b: nat)
    requires Leads(small, a, b) && forall s :: s in small ==> s in big && big[s] == small[s]
    ensures Leads(big, a, b)
  {
    var path :| Route(small, path, a, b);
    forall i | 0 < i < |path| ensures JumpsTo(big, path[i - 1], path[i]) {
      assert JumpsTo(small, path[i - 1], path[i]);
    }
    assert Route(big, path, a, b);
  }

  lemma {:induction false} LeadsFirst(owner: map<Slot, nat>, a: nat, next: nat, b: nat)
    requires JumpsTo(owner, a, next) && Leads(owner, next, b)
    ensures Leads(owner, a, b)
  {
    var path :| Route(owner, path, next, b);
    var longer := [a] + path;
    forall i | 0 < i < |longer| ensures JumpsTo(owner, longer[i - 1], longer[i]) {
      if i > 1 {
        assert JumpsTo(owner, path[i - 2], path[i - 1]);
        assert longer[i - 1] == path[i - 2] && longer[i] == path[i - 1];
      }
    }
    assert Route(owner, longer, a, b);
  }

  lemma {:induction false} OpenedTwice(was: map<Slot, nat>, mid: map<Slot, nat>, now: map<Slot, nat>, tb: nat)
    requires Unchained(was, mid) && OpenedFrom(was, mid, tb) && OpenedFrom(mid, now, tb)
    ensures OpenedFrom(was, now, tb)
  {
    hide Leads;
    forall s | s in was && s !in now ensures Leads(was, tb, s.tb) {
      if s in mid { LeadsMore(mid, was, tb, s.tb); }
    }
  }

  lemma {:induction false} OpenedMore(was: map<Slot, nat>, s: Slot, now: map<Slot, nat>)
    requires s in was && s.n < 2 && OpenedFrom(was - {s}, now, was[s])
    ensures OpenedFrom(was, now, s.tb)
  {
    hide Leads;
    var small := was - {s};
    forall x | x in was && x !in now ensures Leads(was, s.tb, x.tb) {
      if x == s {
        LeadsNowhere(was, s.tb);
      } else {
        assert x in small;
        LeadsMore(small, was, was[s], x.tb);
        assert s == Slot(s.tb, 0) || s == Slot(s.tb, 1);
        LeadsFirst(was, s.tb, was[s], x.tb);
      }
    }
  }

  /** The unchaining opens exactly the slots of the blocks that direct jumps lead to. */
  lemma {:induction false} UnchainedExactly(was: map<Slot, nat>, now: map<Slot, nat>, tb: nat, s: Slot)
    requires Unchained(was, now) && OpenedFrom(was, now, tb) && Slot(tb, 0) !in now && Slot(tb, 1) !in now
    requires s in was && s.n < 2
    ensures s in now <==> !Leads(was, tb, s.tb)
  {
    if Leads(was, tb, s.tb) {
      var path :| Route(was, path, tb, s.tb);
      UnchainedPath(was, now, path);
      assert path[|path| - 1] == s.tb;
      assert s == Slot(s.tb, 0) || s == Slot(s.tb, 1);
    }
  }

  lemma {:induction false} UnchainedMore(was: map<Slot, nat>, s: Slot, now: map<Slot, nat>)
    requires s in was && Unchained(was - {s}, now) && Slot(was[s], 0) !in now && Slot(was[s], 1) !in now
    ensures Unchained(was, now) && s !in now
  {
    forall t | t in was && t !in now ensures Slot(was[t], 0) !in now && Slot(was[t], 1) !in now {
      if t != s { assert t in was - {s} && (was - {s})[t] == was[t]; }
    }
  }

  lemma {:induction false} UnchainedTwice(was: map<Slot, nat>, mid: map<Slot, nat>, now: map<Slot, nat>)
    requires Unchained(was, mid) && Unchained(mid, now)
    ensures Unchained(was, now) && forall s :: s !in mid ==> s !in now
  {}

  lemma {:induction false} FewerOwners(was: map<Slot, nat>, now: map<Slot, nat>)
    requires Unchained(was, now)
    ensures |now| <= |was| && forall s :: s in now ==> s in was
  {
    assert now.Keys <= was.Keys;
    SubsetSize(now.Keys, was.Keys);
  }

  lemma {:induction false} SubsetSize(a: set<Slot>, b: set<Slot>)
    requires a <= b
    ensures |a| <= |b|
  {
    if a != {} {
      var x :| x in a;
      SubsetSize(a - {x}, b - {x});
    }
  }

  /** Slots are only opened, and a block that an opened slot jumped to has no patched slot left. */
  ghost predicate Unchained(was: map<Slot, nat>, now: map<Slot, nat>) {
    && (forall s :: s in now ==> s in was && now[s] == was[s])
    && (forall s :: s in was && s !in now ==> Slot(was[s], 0) !in now && Slot(was[s], 1) !in now)
  }

  ghost predicate JumpsTo(owner: map<Slot, nat>, a: nat, b: nat) {
    || (Slot(a, 0) in owner && owner[Slot(a, 0)] == b)
    || (Slot(a, 1) in owner && owner[Slot(a, 1)] == b)
  }

  /** A run of direct jumps through patched slots. */
  ghost predicate JumpPath(owner: map<Slot, nat>, path: seq<nat>) {
    forall i :: 0 < i < |path| ==> JumpsTo(owner, path[i - 1], path[i])
  }

  /** After the unchaining, every block the running code could have reached directly returns to the loop. */
  lemma {:induction false} UnchainedPath(was: map<Slot, nat>, now: map<Slot, nat>, path: seq<nat>)
    requires Unchained(was, now) && JumpPath(was, path) && |path| > 0
    requires Slot(path[0], 0) !in now && Slot(path[0], 1) !in now
    ensures forall i :: 0 <= i < |path| ==> Slot(path[i], 0) !in now && Slot(path[i], 1) !in now
    decreases |path|
  {
    if |path| > 1 {
      var n := |path| - 1;
      var front := path[..n];
      assert forall i :: 0 <= i < n ==> front[i] == path[i];
      assert JumpPath(was, front) by {
        forall i | 0 < i < n ensures JumpsTo(was, front[i - 1], front[i]) {
          assert JumpsTo(was, path[i - 1], path[i]);
        }
      }
      UnchainedPath(was, now, front);
      assert JumpsTo(was, path[n - 1], path[n]) && front[n - 1] == path[n - 1];
      forall i | 0 <= i < |path| ensures Slot(path[i], 0) !in now && Slot(path[i], 1) !in now {
        if i < n { assert front[i] == path[i]; }
      }
    }
  }

  lemma {:induction false} OwnerShrinks(owner: map<Slot, nat>, s: Slot)
    requires s in owner
    ensures |owner - {s}| < |owner|
  {
    assert (owner - {s}).Keys == owner.Keys - {s};
  }

  /** Native code that starts in a live block stays in live blocks. */
  lemma {:induction false} PathStaysLive(j: Jumps, g: Shape, path: seq<nat>)
    requires Ok(j, g) && |path| > 0 && path[0] in g.live && JumpPath(g.owner, path)
    ensures forall i :: 0 <= i < |path| ==> path[i] in g.live && path[i] < |j.tcPtr|
    decreases |path|
  {
    assert g.live + {} == g.live;
    if |path| > 1 {
      var front := path[..|path| - 1];
      forall i | 0 < i < |front| ensures JumpsTo(g.owner, front[i - 1], front[i]) {
        assert JumpsTo(g.owner, path[i - 1], path[i]);
      }
      PathStaysLive(j, g, front);
      assert JumpsTo(g.owner, path[|path| - 2], path[|path| - 1]);
      forall i | 0 <= i < |path| ensures path[i] in g.live && path[i] < |j.tcPtr| {
        if i < |front| { assert front[i] == path[i]; }
      }
    }
  }

  lemma {:induction false} KnownSlot(j: Jumps, g: Shape, s: Slot)
    requires Ok(j, g) && s.tb < |j.tcPtr| && s.n < 2
    ensures s in j.next && s in j.target && s in j.exits && (j.next[s] != Null <==> s in g.owner)
    ensures s in g.owner ==> g.owner[s] in g.live && g.owner[s] < |j.tcPtr|
  {
    assert g.live + {} == g.live;
  }

  /** Cutting a slot out of its list and resetting its native jump keeps the invariant, whether or not its block
      is still valid. */
  lemma {:induction false} UnchainOk(j: Jumps, g: Shape, b: nat, i: nat)
    requires Ok(j, g) && b < |g.lists| && i < |g.lists[b]|
    ensures InPlace(j, PlaceAt(g.lists[b], i, b)) && g.lists[b][i] in j.next && g.lists[b][i] in j.exits
    ensures var s := g.lists[b][i];
            var u := Unlink(j, g.lists[b], i, b);
            Ok(u.(target := u.target[s := u.exits[s]]), UnlinkShape(g, b, i))
  {
    var s := g.lists[b][i];
    if s.tb in g.live {
      var d := g.(live := g.live - {s.tb});
      DyingOk(j, g, s.tb);
      UnlinkOk(j, d, {s.tb}, b, i);
      Revive(j, g, Unlink(j, d.lists[b], i, b), UnlinkShape(g, b, i), s);
    } else {
      UnlinkOk(j, g, {}, b, i);
      DeadTarget(Unlink(j, g.lists[b], i, b), UnlinkShape(g, b, i), s);
    }
  }

  /** The native jump of an open slot of an invalidated block is free. */
  lemma {:induction false} DeadTarget(u: Jumps, g: Shape, s: Slot)
    requires Ok(u, g) && s in u.next && s !in g.owner && s.tb !in g.live
    ensures s in u.exits && Ok(u.(target := u.target[s := u.exits[s]]), g)
  {
    var r := u.(target := u.target[s := u.exits[s]]);
    assert NativeOk(r, g) && DomainOk(r);
    hide NativeOk, DomainOk;
    assert OwnersOk(r, g.owner, g.live + {});
    hide OwnersOk;
    assert ListsOk(r, g) by { SameLinks(u, r, g, g); }
  }

  lemma {:induction false} Revive(j: Jumps, g: Shape, u: Jumps, g': Shape, s: Slot)
    requires NativeOk(j, g) && s.tb in g.live && u.target == j.target && u.exits == j.exits && s in j.exits
    requires g'.live == g.live && g'.owner == g.owner - {s}
    requires OkBut(u, g'.(live := g.live - {s.tb}), {s.tb})
    ensures Ok(u.(target := u.target[s := u.exits[s]]), g')
  {
    var r := u.(target := u.target[s := u.exits[s]]);
    assert (g.live - {s.tb}) + {s.tb} == g'.live + {} == g.live;
    assert NativeOk(r, g');
    assert DomainOk(r);
    hide NativeOk, DomainOk;
    assert ListsOk(r, g') by { SameLinks(u, r, g'.(live := g.live - {s.tb}), g'); }
  }

  lemma {:induction false} SameLinks(u: Jumps, r: Jumps, g: Shape, g': Shape)
    requires ListsOk(u, g) && r.first == u.first && r.next == u.next && g'.lists == g.lists && g'.owner == g.owner
    ensures ListsOk(r, g')
  {
    forall b | 0 <= b < |g.lists| ensures Spells(r, g.lists[b], b) && Lists(g'.owner, g.lists[b], b) {
      assert Spells(u, g.lists[b], b);
      SpellsFrame(u, r, g.lists[b], b);
    }
  }

  /** The first loop of tb_reset_jump_recursive2: the tag-2 link ahead names the block jumped to. */
  method FindOwner(j: Jumps, s: Slot, ghost list: seq<Slot>, ghost b: nat, ghost i: nat) returns (next: nat)
    requires Spells(j, list, b) && i < |list| && list[i] == s
    requires forall k :: 0 <= k < |list| ==> list[k].n < 2
    ensures next == b
  {
    var link := j.next[s];
    ghost var p := i + 1;
    while link.tag != 2
      invariant p <= |list| && link == LinkAt(list, p, b)
      decreases |list| - p
    {
      assert list[p] in list;
      link := j.next[Slot(link.tb, link.tag)];
      p := p + 1;
    }
    next := link.tb;
  }

  /** The second loop: from jmp_first along the list to the link that names the slot. */
  method FindFromHead(j: Jumps, s: Slot, ghost list: seq<Slot>, b: nat, ghost i: nat) returns (ptb: Place)
    requires Spells(j, list, b) && NoDup(list) && i < |list| && list[i] == s
    ensures ptb == PlaceAt(list, i, b) && InPlace(j, ptb)
  {
    ptb := FirstOf(b);
    ghost var p: nat := 0;
    while true
      invariant p <= i && ptb == PlaceAt(list, p, b)
      decreases i - p
    {
      ReadPlaceAt(j, list, b, p);
      hide Spells;
      var link := Read(j, ptb);
      if link == To(s.tb, s.n) { return; }
      ptb := NextOf(Slot(link.tb, link.tag));
      p := p + 1;
    }
  }

  ghost function SlotSet(list: seq<Slot>): set<Slot> { set s | s in list }

  /** The last loop of tb_phys_invalidate: reset and unlink every slot in the block's list. */
  method OpenJumpers(j0: Jumps, tb: nat, ghost list: seq<Slot>) returns (j: Jumps)
    requires Spells(j0, list, tb) && NoDup(list) && tb < |j0.first|
    requires forall k :: 0 <= k < |list| ==> list[k].n < 2
    requires forall s :: s in j0.next ==> s in j0.target && s in j0.exits
    ensures j == Clear(j0, SlotSet(list))
  {
    j := j0;
    var tb1 := j.first[tb];
    ghost var k := 0;
    ClearNone(j0);
    assert SlotSet(list[..0]) == {};
    while tb1.tag != 2
      invariant 0 <= k <= |list| && tb1 == LinkAt(list, k, tb) && j == Clear(j0, SlotSet(list[..k]))
      decreases |list| - k
    {
      assert k < |list|;
      ClearStep(j0, list, tb, k);
      hide Spells, Clear;
      var s := Slot(tb1.tb, tb1.tag);
      var tb2 := j.next[s];
      j := j.(target := j.target[s := j.exits[s]], next := j.next[s := Null]);
      tb1 := tb2;
      k := k + 1;
    }
    assert list[..k] == list;
  }

  lemma {:induction false} ClearNone(j: Jumps)
    ensures Clear(j, {}) == j
  {}

  lemma {:induction false} ExitsKnown(j: Jumps, g: Shape, dying: set<nat>)
    requires OkBut(j, g, dying)
    ensures forall s :: s in j.next ==> s in j.target && s in j.exits
  {}

  /** The loop of tb_jmp_remove: round the circle from the slot's own link to the one naming it. */
  method FindLink(j: Jumps, s: Slot, ghost list: seq<Slot>, ghost b: nat, ghost i: nat) returns (ptb: Place)
    requires Spells(j, list, b) && NoDup(list) && i < |list| && list[i] == s && s.n < 2
    requires forall k :: 0 <= k < |list| ==> list[k].n < 2
    ensures ptb == PlaceAt(list, i, b) && InPlace(j, ptb)
  {
    ghost var p: nat := i + 1;
    ptb := NextOf(s);
    while true
      invariant p <= |list| && ptb == PlaceAt(list, p, b)
      decreases if p > i then |list| + 1 - p + i else i - p
    {
      ReadPlaceAt(j, list, b, p);
      hide Spells;
      var link := Read(j, ptb);
      if link == To(s.tb, s.n) { return; }
      ptb := if link.tag == 2 then FirstOf(link.tb) else NextOf(Slot(link.tb, link.tag));
      p := if p == |list| then 0 else p + 1;
    }
  }

  /** Where a patched slot stands in its owner's list. */
  lemma {:induction false} Position(j: Jumps, g: Shape, dying: set<nat>, s: Slot) returns (i: nat)
    requires OkBut(j, g, dying) && s in g.owner && g.owner[s] < |j.tcPtr|
    ensures var b := g.owner[s];
            b < |g.lists| == |j.first| && i < |g.lists[b]| && g.lists[b][i] == s &&
            Spells(j, g.lists[b], b) && NoDup(g.lists[b]) && forall k :: 0 <= k < |g.lists[b]| ==> g.lists[b][k].n < 2
  {
    var b := g.owner[s];
    ListFacts(j, g, dying, b);
    hide OkBut;
    i :| 0 <= i < |g.lists[b]| && g.lists[b][i] == s;
  }

  lemma {:induction false} CutIsUnlink(j: Jumps, list: seq<Slot>, i: nat, b: nat)
    requires i < |list| && list[i] in j.next && InPlace(j, PlaceAt(list, i, b))
    ensures var k := Write(j, PlaceAt(list, i, b), j.next[list[i]]);
            Unlink(j, list, i, b) == k.(next := k.next[list[i] := Null])
    ensures Unlink(j, list, i, b).target == j.target && Unlink(j, list, i, b).exits == j.exits
    ensures Unlink(j, list, i, b).tcPtr == j.tcPtr
  {}

  lemma {:induction false} SlotFacts(j: Jumps, g: Shape, dying: set<nat>, s: Slot)
    requires OkBut(j, g, dying) && s.tb < |j.tcPtr| && s.n < 2
    ensures s in j.next && (j.next[s] != Null <==> s in g.owner) && (s in g.owner ==> g.owner[s] < |j.tcPtr|)
  {}

  lemma {:induction false} OwnerDomain(j: Jumps, g: Shape, dying: set<nat>)
    requires OkBut(j, g, dying)
    ensures forall s :: s in g.owner ==> s.n < 2
  {}

  lemma {:induction false} DyingOk(j: Jumps, g: Shape, tb: nat)
    requires Ok(j, g) && tb in g.live
    ensures OkBut(j, g.(live := g.live - {tb}), {tb}) && tb < |j.tcPtr|
  {
    assert g.live + {} == (g.live - {tb}) + {tb} == g.live;
    hide ListsOk, DomainOk;
    var g' := g.(live := g.live - {tb});
    assert ListsOk(j, g') by { LiveIrrelevant(j, g, g'); }
  }

  lemma {:induction false} LiveIrrelevant(j: Jumps, g: Shape, g': Shape)
    requires ListsOk(j, g) && g'.lists == g.lists && g'.owner == g.owner
    ensures ListsOk(j, g')
  {}

  /** Opening one more slot of the list leaves the rest of the circle to read. */
  lemma {:induction false} ClearStep(j: Jumps, list: seq<Slot>, b: nat, k: nat)
    requires Spells(j, list, b) && NoDup(list) && k < |list|
    requires forall s :: s in j.next ==> s in j.target && s in j.exits
    ensures var (c, c') := (Clear(j, SlotSet(list[..k])), Clear(j, SlotSet(list[..k + 1])));
            var s := list[k];
            s in c.next && c.next[s] == LinkAt(list, k + 1, b) && s in c.target && s in c.exits &&
            c' == c.(target := c.target[s := c.exits[s]], next := c.next[s := Null])
  {
    var (a, a') := (SlotSet(list[..k]), SlotSet(list[..k + 1]));
    assert list[k] in list;
    assert list[..k + 1] == list[..k] + [list[k]];
    assert a' == a + {list[k]} && list[k] !in a;
    assert j.next[list[k]] == LinkAt(list, k + 1, b);
    hide SlotSet, Spells, NoDup;
    ClearMore(j, a, list[k]);
  }

  lemma {:induction false} ClearMore(j: Jumps, a: set<Slot>, s: Slot)
    requires s !in a && s in j.next && s in j.target && s in j.exits
    ensures var (c, c') := (Clear(j, a), Clear(j, a + {s}));
            s in c.next && c.next[s] == j.next[s] && s in c.exits &&
            c' == c.(target := c.target[s := c.exits[s]], next := c.next[s := Null])
  {
    var (c, c') := (Clear(j, a), Clear(j, a + {s}));
    assert c'.next == c.next[s := Null];
    assert c'.target == c.target[s := c.exits[s]];
  }

  lemma {:induction false} FollowLink(j: Jumps, list: seq<Slot>, b: nat, i: nat)
    requires Spells(j, list, b) && i < |list|
    ensures list[i] in j.next && j.next[list[i]] == LinkAt(list, i + 1, b)
  {
    assert list[i] in list;
  }

  /** What the invariant says of one list. */
  lemma {:induction false} ListFacts(j: Jumps, g: Shape, dying: set<nat>, b: nat)
    requires OkBut(j, g, dying) && b < |j.tcPtr|
    ensures b < |g.lists| == |j.first| && Spells(j, g.lists[b], b) && Lists(g.owner, g.lists[b], b)
    ensures forall i :: 0 <= i < |g.lists[b]| ==> g.lists[b][i].n < 2 && g.lists[b][i].tb < |j.tcPtr|
  {
    var list := g.lists[b];
    assert Spells(j, list, b) && Lists(g.owner, list, b);
    forall i | 0 <= i < |list| ensures list[i].n < 2 && list[i].tb < |j.tcPtr| {
      assert list[i] in list;
    }
  }
}
