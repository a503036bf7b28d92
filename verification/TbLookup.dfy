/**
 Finding a translated block (cpu-exec.c:123-188): a direct-mapped jump cache in front of hash
 chains keyed by physical address. Also what adds and removes blocks (exec.c:637-672,
 exec.c:715-729, exec.c:780-812, exec.c:901-940, exec.c:1215-1246) and what changes the code
 mapping (exec.c:1763-1808).

 Blocks are numbered by their place in the block array. One virtual CPU. A code fetch that
 faults leaves the lookup by a long jump and is not modelled.
 */
module TbLookup {
  import opened Common
  import opened TbHash

  datatype Key = Key(pc: bv32, csBase: bv32, flags: int)

  datatype Block = Block(key: Key, page0: bv32, page1: bv32)

  datatype Ptr = Null | Tb(id: nat)

  /** The code mapping: the physical page behind each virtual page. */
  type Mapping = bv32 -> bv32

  /** get_phys_addr_code. */
  function Phys(m: Mapping, a: bv32): bv32 { InPage(PageOf(m(PageOf(a))), Offset(a)) }

  /** The test of tb_find_slow. */
  predicate Match(m: Mapping, b: Block, k: Key) {
    && b.key == k && b.page0 == PageOf(Phys(m, k.pc))
    && (b.page1 == NoPage || b.page1 == Phys(m, NextPage(k.pc)))
  }

  /** The physical address a block is filed under. */
  function FiledAt(b: Block): bv32 { InPage(b.page0, Offset(b.key.pc)) }

  function ChainFor(m: Mapping, k: Key): nat { Bucket(Phys(m, k.pc)) }

  lemma {:induction false} PhysPage(m: Mapping, a: bv32)
    ensures PageOf(Phys(m, a)) == PageOf(m(PageOf(a)))
  {
    PageOfInPage(m(PageOf(a)), a);
    hide PageOf, Offset, InPage;
  }

  lemma {:induction false} PhysOfPage(m: Mapping, a: bv32)
    requires Offset(a) == 0
    ensures Phys(m, a) == PageOf(m(PageOf(a))) && Phys(m, a) != NoPage
  {
    PageIsNotNoPage(m(PageOf(a)));
    PageStart(PageOf(m(PageOf(a))));
    hide PageOf, Offset, InPage;
  }

  /** A block that matches is filed in the chain the lookup walks. */
  lemma {:induction false} MatchFiled(m: Mapping, b: Block, k: Key)
    requires Match(m, b, k)
    ensures FiledAt(b) == Phys(m, k.pc)
  {
    PhysPage(m, k.pc);
    hide PageOf, Offset, NextPage, InPage;
  }

  // ----- tb_gen_code: the fields of a new block of extent + 1 bytes

  function Generated(m: Mapping, k: Key, extent: bv32): Block {
    var virtPage2 := PageOf(LastOf(k.pc, extent));
    Block(k, PageOf(Phys(m, k.pc)), if PageOf(k.pc) != virtPage2 then Phys(m, virtPage2) else NoPage)
  }

  lemma {:induction false} GeneratedMatches(m: Mapping, k: Key, extent: bv32)
    requires extent < 0x400
    ensures Match(m, Generated(m, k, extent), k)
  {
    LastByte(k.pc, extent);
    hide PageOf, NextPage, LastOf, Phys;
  }

  /** The mark for one page is never the address of a second page, so page_addr[1] tells whether a block lies on
      one page. */
  lemma {:induction false} OnePageKnown(m: Mapping, k: Key, extent: bv32)
    ensures Generated(m, k, extent).page1 == NoPage <==> PageOf(LastOf(k.pc, extent)) == PageOf(k.pc)
  {
    PageAligned(LastOf(k.pc, extent));
    PhysOfPage(m, PageOf(LastOf(k.pc, extent)));
    hide PageOf, Offset, InPage, LastOf, Phys;
  }

  lemma {:induction false} GeneratedFiled(m: Mapping, k: Key, extent: bv32)
    requires extent < 0x400
    ensures Bucket(FiledAt(Generated(m, k, extent))) == ChainFor(m, k)
  {
    GeneratedMatches(m, k, extent);
    MatchFiled(m, Generated(m, k, extent), k);
    hide PageOf, NextPage, LastOf, Phys, Bucket, FiledAt, Generated, Match;
  }

  // ----- the chain walk as a function of the chain's blocks in order

  function Walk(m: Mapping, blocks: seq<Block>, chain: seq<nat>, k: Key): Ptr {
    if chain == [] then Null
    else if chain[0] < |blocks| && Match(m, blocks[chain[0]], k) then Tb(chain[0])
    else Walk(m, blocks, chain[1..], k)
  }

  lemma {:induction false} WalkFinds(m: Mapping, blocks: seq<Block>, chain: seq<nat>, k: Key)
    ensures var w := Walk(m, blocks, chain, k);
            w.Tb? ==> w.id in chain && w.id < |blocks| && Match(m, blocks[w.id], k)
  {
    hide Match;
    if chain != [] { WalkFinds(m, blocks, chain[1..], k); }
  }

  /** The walk depends only on the keys in the chain and on the two pages of the address. */
  lemma {:induction false} WalkFrame(m: Mapping, m': Mapping, blocks: seq<Block>, blocks': seq<Block>, chain: seq<nat>,
                                     k: Key)
    requires forall i :: 0 <= i < |chain| ==>
               chain[i] < |blocks| && chain[i] < |blocks'| && blocks'[chain[i]] == blocks[chain[i]]
    requires Phys(m', k.pc) == Phys(m, k.pc) && Phys(m', NextPage(k.pc)) == Phys(m, NextPage(k.pc))
    ensures Walk(m', blocks', chain, k) == Walk(m, blocks, chain, k)
  {
    hide Phys, PageOf, NextPage;
    if chain != [] { WalkFrame(m, m', blocks, blocks', chain[1..], k); }
  }

  /** A block put in front is found first if it matches, and is passed over if it does not. */
  lemma {:induction false} WalkFront(m: Mapping, blocks: seq<Block>, id: nat, chain: seq<nat>, k: Key)
    requires id < |blocks|
    ensures Walk(m, blocks, [id] + chain, k) == if Match(m, blocks[id], k) then Tb(id) else Walk(m, blocks, chain, k)
  {
    assert ([id] + chain)[1..] == chain;
    hide Match;
  }

  /** Taking a block out of the chain changes nothing for a key that does not find it. */
  lemma {:induction false} WalkWithout(m: Mapping, blocks: seq<Block>, chain: seq<nat>, i: nat, k: Key)
    requires i < |chain| && Walk(m, blocks, chain, k) != Tb(chain[i])
    ensures Walk(m, blocks, Without(chain, i), k) == Walk(m, blocks, chain, k)
  {
    hide Match;
    if i == 0 {
      assert Without(chain, 0) == chain[1..];
    } else {
      assert Without(chain, i)[0] == chain[0] && Without(chain, i)[1..] == Without(chain[1..], i - 1);
      if !(chain[0] < |blocks| && Match(m, blocks[chain[0]], k)) {
        WalkWithout(m, blocks, chain[1..], i - 1, k);
      }
    }
  }

  // ----- the tables

  datatype Tables = Tables(
    blocks: seq<Block>,          // tbs[0 .. nb_tbs]
    next: seq<Ptr>,              // phys_hash_next
    heads: seq<Ptr>)             // tb_phys_hash

  function At(chain: seq<nat>, i: nat): Ptr
    requires i <= |chain|
  {
    if i < |chain| then Tb(chain[i]) else Null
  }

  ghost predicate Spells(t: Tables, chain: seq<nat>, h: nat) {
    && h < |t.heads| && t.heads[h] == At(chain, 0)
    && (forall i :: 0 <= i < |chain| ==> chain[i] < |t.next|)
    && forall i {:trigger t.next[chain[i]]} :: 0 <= i < |chain| ==> t.next[chain[i]] == At(chain, i + 1)
  }

  ghost predicate Filed(blocks: seq<Block>, chain: seq<nat>, h: nat) {
    && (forall i, j :: 0 <= i < j < |chain| ==> chain[i] != chain[j])
    && (forall i :: 0 <= i < |chain| ==> chain[i] < |blocks| && Bucket(FiledAt(blocks[chain[i]])) == h)
  }

  ghost predicate ChainsOk(t: Tables, chains: seq<seq<nat>>) {
    forall h :: 0 <= h < |chains| ==> Spells(t, chains[h], h) && Filed(t.blocks, chains[h], h)
  }

  ghost predicate TablesOk(t: Tables, chains: seq<seq<nat>>) {
    && |chains| == |t.heads| == 0x8000 && |t.next| == |t.blocks| && ChainsOk(t, chains)
  }

  /** What tb_find_slow's walk finds. */
  ghost function FullWalk(m: Mapping, blocks: seq<Block>, chains: seq<seq<nat>>, k: Key): Ptr
    requires |chains| == 0x8000
  {
    BucketRange(Phys(m, k.pc));
    Walk(m, blocks, chains[ChainFor(m, k)], k)
  }

  /** A cached block sits in its own slot and is what a full walk for its key finds. */
  ghost predicate Cached(m: Mapping, blocks: seq<Block>, chains: seq<seq<nat>>, i: nat, p: Ptr)
    requires |chains| == 0x8000
  {
    p.Tb? ==>
      p.id < |blocks| && CacheSlot(blocks[p.id].key.pc) == i && FullWalk(m, blocks, chains, blocks[p.id].key) == p
  }

  ghost predicate CacheOk(m: Mapping, blocks: seq<Block>, chains: seq<seq<nat>>, cache: seq<Ptr>)
    requires |chains| == 0x8000
  {
    |cache| == 4096 && forall i :: 0 <= i < |cache| ==> Cached(m, blocks, chains, i, cache[i])
  }

  /** Every key but one finds the same block in both tables. */
  ghost predicate SameElsewhere(m: Mapping, blocks: seq<Block>, chains: seq<seq<nat>>, blocks': seq<Block>,
                                chains': seq<seq<nat>>, k: Key)
    requires |chains| == |chains'| == 0x8000
  {
    forall k' :: k' != k ==> FullWalk(m, blocks', chains', k') == FullWalk(m, blocks, chains, k')
  }

  /** The block is filed, so lookups may find it. */
  ghost predicate Live(blocks: seq<Block>, chains: seq<seq<nat>>, id: nat) {
    id < |blocks| && Bucket(FiledAt(blocks[id])) < |chains| && id in chains[Bucket(FiledAt(blocks[id]))]
  }

  // ----- tb_link_phys: a new block goes to the front of its chain

  function Add(t: Tables, b: Block, h: nat): Tables
    requires h < |t.heads|
  {
    Tables(t.blocks + [b], t.next + [t.heads[h]], t.heads[h := Tb(|t.blocks|)])
  }

  ghost function AddChain(t: Tables, chains: seq<seq<nat>>, h: nat): seq<seq<nat>>
    requires h < |chains|
  {
    chains[h := [|t.blocks|] + chains[h]]
  }

  lemma {:induction false} AddSpells(t: Tables, chain: seq<nat>, b: Block, h: nat)
    requires |t.next| == |t.blocks| && Spells(t, chain, h) && Filed(t.blocks, chain, h) && Bucket(FiledAt(b)) == h
    ensures Spells(Add(t, b, h), [|t.blocks|] + chain, h) && Filed(t.blocks + [b], [|t.blocks|] + chain, h)
  {
    hide Bucket, FiledAt;
    var (t', chain') := (Add(t, b, h), [|t.blocks|] + chain);
    forall i | 0 <= i < |chain'|
      ensures chain'[i] < |t'.next| && t'.next[chain'[i]] == At(chain', i + 1)
      ensures Bucket(FiledAt(t'.blocks[chain'[i]])) == h
    {
      if i > 0 { assert chain'[i] == chain[i - 1]; }
    }
  }

  lemma {:induction false} AddKeeps(t: Tables, chain: seq<nat>, c: nat, b: Block, h: nat)
    requires |t.next| == |t.blocks| && Spells(t, chain, c) && Filed(t.blocks, chain, c) && h < |t.heads| && c != h
    ensures Spells(Add(t, b, h), chain, c) && Filed(t.blocks + [b], chain, c)
  {
    hide Bucket, FiledAt;
    var t' := Add(t, b, h);
    forall i | 0 <= i < |chain| ensures t'.next[chain[i]] == At(chain, i + 1) {
      assert t.next[chain[i]] == At(chain, i + 1);
    }
  }

  lemma {:induction false} AddOk(t: Tables, chains: seq<seq<nat>>, b: Block, h: nat)
    requires TablesOk(t, chains) && Bucket(FiledAt(b)) == h && h < 0x8000
    ensures TablesOk(Add(t, b, h), AddChain(t, chains, h))
  {
    hide Bucket, FiledAt, Spells, Filed;
    var (t', chains') := (Add(t, b, h), AddChain(t, chains, h));
    forall c | 0 <= c < |chains'| ensures Spells(t', chains'[c], c) && Filed(t'.blocks, chains'[c], c) {
      if c == h { AddSpells(t, chains[h], b, h); } else { AddKeeps(t, chains[c], c, b, h); }
    }
  }

  /** After a new block is filed, its key finds it and every other key finds what it found before. */
  lemma {:induction false} AddFinds(m: Mapping, t: Tables, chains: seq<seq<nat>>, b: Block, h: nat, k: Key)
    requires TablesOk(t, chains) && h == ChainFor(m, b.key) && h < 0x8000 && Match(m, b, b.key)
    ensures FullWalk(m, t.blocks + [b], AddChain(t, chains, h), k)
         == if k == b.key then Tb(|t.blocks|) else FullWalk(m, t.blocks, chains, k)
  {
    BucketRange(Phys(m, k.pc));
    var c := ChainFor(m, k);
    assert Filed(t.blocks, chains[c], c);
    WalkFrame(m, m, t.blocks, t.blocks + [b], chains[c], k);
    if c == h { WalkFront(m, t.blocks + [b], |t.blocks|, chains[h], k); }
    assert k != b.key ==> !Match(m, b, k);
    hide Match, Phys, Bucket, Walk;
  }

  // ----- tb_remove: a block leaves its chain

  datatype Place = Head(h: nat) | NextOf(id: nat)

  predicate InPlace(t: Tables, p: Place) { if p.Head? then p.h < |t.heads| else p.id < |t.next| }

  function Read(t: Tables, p: Place): Ptr
    requires InPlace(t, p)
  {
    if p.Head? then t.heads[p.h] else t.next[p.id]
  }

  function Write(t: Tables, p: Place, v: Ptr): Tables
    requires InPlace(t, p)
  {
    if p.Head? then t.(heads := t.heads[p.h := v]) else t.(next := t.next[p.id := v])
  }

  function PlaceAt(chain: seq<nat>, i: nat, h: nat): Place
    requires i <= |chain|
  {
    if i == 0 then Head(h) else NextOf(chain[i - 1])
  }

  lemma {:induction false} ReadPlaceAt(t: Tables, chain: seq<nat>, h: nat, i: nat)
    requires Spells(t, chain, h) && i <= |chain|
    ensures InPlace(t, PlaceAt(chain, i, h)) && Read(t, PlaceAt(chain, i, h)) == At(chain, i)
  {}

  lemma {:induction false} CutFiled(blocks: seq<Block>, chain: seq<nat>, h: nat, i: nat)
    requires Filed(blocks, chain, h) && i < |chain|
    ensures Filed(blocks, Without(chain, i), h)
  {
    hide Bucket, FiledAt;
    var chain' := Without(chain, i);
    assert forall k :: 0 <= k < |chain'| ==> chain'[k] == chain[if k < i then k else k + 1];
  }

  lemma {:induction false} CutSpells(t: Tables, chain: seq<nat>, h: nat, i: nat)
    requires Spells(t, chain, h) && Filed(t.blocks, chain, h) && i < |chain|
    ensures InPlace(t, PlaceAt(chain, i, h))
    ensures Spells(Write(t, PlaceAt(chain, i, h), t.next[chain[i]]), Without(chain, i), h)
    ensures Filed(t.blocks, Without(chain, i), h)
  {
    hide Bucket, FiledAt;
    ReadPlaceAt(t, chain, h, i);
    var (t', chain') := (Write(t, PlaceAt(chain, i, h), t.next[chain[i]]), Without(chain, i));
    forall k | 0 <= k < |chain'| ensures chain'[k] < |t'.next| && t'.next[chain'[k]] == At(chain', k + 1) {
      var o := if k < i then k else k + 1;
      assert chain'[k] == chain[o];
      assert t.next[chain[o]] == At(chain, o + 1) && t.next[chain[i]] == At(chain, i + 1);
    }
    CutFiled(t.blocks, chain, h, i);
    hide Filed;
  }

  lemma {:induction false} CutKeeps(t: Tables, chain: seq<nat>, h: nat, i: nat, other: seq<nat>, c: nat)
    requires Spells(t, chain, h) && Filed(t.blocks, chain, h) && i < |chain| && InPlace(t, PlaceAt(chain, i, h))
    requires Spells(t, other, c) && Filed(t.blocks, other, c) && c != h
    ensures Spells(Write(t, PlaceAt(chain, i, h), t.next[chain[i]]), other, c)
  {
    hide Bucket, FiledAt;
    var t' := Write(t, PlaceAt(chain, i, h), t.next[chain[i]]);
    forall k | 0 <= k < |other| ensures t'.next[other[k]] == At(other, k + 1) {
      assert t.next[other[k]] == At(other, k + 1);
      assert Bucket(FiledAt(t.blocks[other[k]])) == c;
    }
  }

  lemma {:induction false} CutOk(t: Tables, chains: seq<seq<nat>>, h: nat, i: nat)
    requires TablesOk(t, chains) && h < |chains| && i < |chains[h]|
    ensures InPlace(t, PlaceAt(chains[h], i, h)) && chains[h][i] < |t.next|
    ensures TablesOk(Write(t, PlaceAt(chains[h], i, h), t.next[chains[h][i]]), chains[h := Without(chains[h], i)])
  {
    assert Spells(t, chains[h], h) && Filed(t.blocks, chains[h], h);
    CutSpells(t, chains[h], h, i);
    assert chains[h][i] < |t.next|;
    hide Bucket, FiledAt, Spells, Filed;
    var (t', chains') := (Write(t, PlaceAt(chains[h], i, h), t.next[chains[h][i]]), chains[h := Without(chains[h], i)]);
    forall c | 0 <= c < |chains'| ensures Spells(t', chains'[c], c) && Filed(t'.blocks, chains'[c], c) {
      if c != h { CutKeeps(t, chains[h], h, i, chains[c], c); }
    }
  }

  /** A key that does not find the block finds after the cut what it found before. */
  lemma {:induction false} CutFinds(m: Mapping, t: Tables, chains: seq<seq<nat>>, h: nat, i: nat, k: Key)
    requires TablesOk(t, chains) && h < |chains| && i < |chains[h]|
    requires FullWalk(m, t.blocks, chains, k) != Tb(chains[h][i])
    ensures FullWalk(m, t.blocks, chains[h := Without(chains[h], i)], k) == FullWalk(m, t.blocks, chains, k)
  {
    if ChainFor(m, k) == h { WalkWithout(m, t.blocks, chains[h], i, k); }
    hide Walk, Phys, Bucket;
  }

  /** Where a block stands in a chain. */
  ghost function IndexIn(chain: seq<nat>, id: nat): (i: nat)
    requires id in chain
    ensures i < |chain| && chain[i] == id
  {
    if chain[0] == id then 0 else 1 + IndexIn(chain[1..], id)
  }

  lemma {:induction false} IndexUnique(chain: seq<nat>, id: nat, q: nat)
    requires q < |chain| && chain[q] == id && forall i, j :: 0 <= i < j < |chain| ==> chain[i] != chain[j]
    ensures id in chain && IndexIn(chain, id) == q
  {
    var i := IndexIn(chain, id);
  }

  /** The loop of tb_remove. When the block is not in the chain the source walks off its end. */
  method FindPlace(t: Tables, id: nat, h: nat, ghost chain: seq<nat>) returns (found: bool, p: Place)
    requires Spells(t, chain, h) && Filed(t.blocks, chain, h)
    ensures found <==> id in chain
    ensures found ==> p == PlaceAt(chain, IndexIn(chain, id), h) && InPlace(t, p)
  {
    hide Bucket, FiledAt;
    p := Head(h);
    ghost var q: nat := 0;
    ReadPlaceAt(t, chain, h, q);
    while Read(t, p) != Tb(id)
      invariant q <= |chain| && p == PlaceAt(chain, q, h) && InPlace(t, p) && Read(t, p) == At(chain, q)
      invariant id !in chain[..q]
      decreases |chain| - q
    {
      if Read(t, p) == Null {
        assert chain[..q] == chain;
        return false, p;
      }
      p := NextOf(Read(t, p).id);
      q := q + 1;
      ReadPlaceAt(t, chain, h, q);
    }
    IndexUnique(chain, id, q);
    found := true;
  }

  // ----- what keeps the jump cache

  lemma {:induction false} CacheAfterAdd(m: Mapping, t: Tables, chains: seq<seq<nat>>, cache: seq<Ptr>, b: Block,
                                         h: nat)
    requires TablesOk(t, chains) && CacheOk(m, t.blocks, chains, cache)
    requires h == ChainFor(m, b.key) && h < 0x8000 && Match(m, b, b.key) && FullWalk(m, t.blocks, chains, b.key) == Null
    ensures CacheOk(m, t.blocks + [b], AddChain(t, chains, h), cache)
  {
    hide FullWalk, Match, CacheSlot, ChainFor;
    forall i | 0 <= i < |cache| ensures Cached(m, t.blocks + [b], AddChain(t, chains, h), i, cache[i]) {
      assert Cached(m, t.blocks, chains, i, cache[i]);
      if cache[i].Tb? { AddFinds(m, t, chains, b, h, t.blocks[cache[i].id].key); }
    }
  }

  lemma {:induction false} CacheAfterStore(m: Mapping, blocks: seq<Block>, chains: seq<seq<nat>>, cache: seq<Ptr>,
                                           id: nat)
    requires |chains| == 0x8000 && CacheOk(m, blocks, chains, cache) && id < |blocks|
    requires FullWalk(m, blocks, chains, blocks[id].key) == Tb(id) && CacheSlot(blocks[id].key.pc) < |cache|
    ensures CacheOk(m, blocks, chains, cache[CacheSlot(blocks[id].key.pc) := Tb(id)])
  {
    hide FullWalk, CacheSlot;
    var cache' := cache[CacheSlot(blocks[id].key.pc) := Tb(id)];
    forall i | 0 <= i < |cache'| ensures Cached(m, blocks, chains, i, cache'[i]) {
      assert Cached(m, blocks, chains, i, cache[i]);
    }
  }

  /** The jump-cache step of tb_phys_invalidate. */
  function Dropped(cache: seq<Ptr>, slot: nat, id: nat): seq<Ptr> {
    if slot < |cache| && cache[slot] == Tb(id) then cache[slot := Null] else cache
  }

  lemma {:induction false} CacheAfterCut(m: Mapping, t: Tables, chains: seq<seq<nat>>, cache: seq<Ptr>, h: nat, j: nat)
    requires TablesOk(t, chains) && CacheOk(m, t.blocks, chains, cache) && h < |chains| && j < |chains[h]|
    requires chains[h][j] < |t.blocks|
    ensures CacheOk(m, t.blocks, chains[h := Without(chains[h], j)],
                    Dropped(cache, CacheSlot(t.blocks[chains[h][j]].key.pc), chains[h][j]))
  {
    hide FullWalk, CacheSlot;
    var (id, chains') := (chains[h][j], chains[h := Without(chains[h], j)]);
    var cache' := Dropped(cache, CacheSlot(t.blocks[id].key.pc), id);
    forall i | 0 <= i < |cache'| ensures Cached(m, t.blocks, chains', i, cache'[i]) {
      assert Cached(m, t.blocks, chains, i, cache[i]);
      if cache'[i].Tb? { CutFinds(m, t, chains, h, j, t.blocks[cache[i].id].key); }
    }
  }

  /** Nothing is cached. */
  function Empty(n: nat): seq<Ptr> { seq(n, _ => Null) }

  lemma {:induction false} CacheEmpty(m: Mapping, blocks: seq<Block>, chains: seq<seq<nat>>)
    requires |chains| == 0x8000
    ensures CacheOk(m, blocks, chains, Empty(4096))
  {}

  /** The mappings agree except on the page of addr. */
  ghost predicate RemapsOnly(m: Mapping, m': Mapping, addr: bv32) {
    forall a: bv32 :: a != PageOf(addr) ==> m'(a) == m(a)
  }

  ghost predicate InWindow(page: bv32, i: nat) { WindowStart(page) <= i < WindowStart(page) + 64 }

  /** tlb_flush_jmp_cache drops the slots of the page and of the page before it. */
  ghost predicate Flushed(cache: seq<Ptr>, cache': seq<Ptr>, addr: bv32) {
    && |cache'| == |cache|
    && forall i :: 0 <= i < |cache| ==>
         cache'[i] == if InWindow(addr - 0x400, i) || InWindow(addr, i) then Null else cache[i]
  }

  /** An address that hashes outside both windows reads neither of its pages through the remapped one. */
  lemma {:induction false} RemapInvisible(m: Mapping, m': Mapping, addr: bv32, pc: bv32)
    requires RemapsOnly(m, m', addr) && !InWindow(addr - 0x400, CacheSlot(pc)) && !InWindow(addr, CacheSlot(pc))
    ensures Phys(m', pc) == Phys(m, pc) && Phys(m', NextPage(pc)) == Phys(m, NextPage(pc))
  {
    if PageOf(pc) == PageOf(addr) { HashWindow(pc, addr); }
    if NextPage(pc) == PageOf(addr) {
      NextPageIs(pc, addr);
      HashWindow(pc, addr - 0x400);
    }
    NextPageAligned(pc);
    hide PageOf, NextPage, CacheSlot, WindowStart, Offset, InPage;
  }

  lemma {:induction false} CacheAfterRemap(m: Mapping, m': Mapping, t: Tables, chains: seq<seq<nat>>, cache: seq<Ptr>,
                                           cache': seq<Ptr>, addr: bv32)
    requires TablesOk(t, chains) && CacheOk(m, t.blocks, chains, cache)
    requires RemapsOnly(m, m', addr) && Flushed(cache, cache', addr)
    ensures CacheOk(m', t.blocks, chains, cache')
  {
    forall i | 0 <= i < |cache'| ensures Cached(m', t.blocks, chains, i, cache'[i]) {
      assert Cached(m, t.blocks, chains, i, cache[i]);
      if cache'[i].Tb? {
        var k := t.blocks[cache[i].id].key;
        RemapInvisible(m, m', addr, k.pc);
        SameWalk(m, m', t, chains, k);
      }
      hide InWindow, RemapsOnly, FullWalk, CacheSlot, TablesOk;
    }
  }

  lemma {:induction false} SameWalk(m: Mapping, m': Mapping, t: Tables, chains: seq<seq<nat>>, k: Key)
    requires TablesOk(t, chains) && Phys(m', k.pc) == Phys(m, k.pc) &&
             Phys(m', NextPage(k.pc)) == Phys(m, NextPage(k.pc))
    ensures FullWalk(m', t.blocks, chains, k) == FullWalk(m, t.blocks, chains, k)
  {
    BucketRange(Phys(m, k.pc));
    var c := ChainFor(m, k);
    assert Filed(t.blocks, chains[c], c);
    WalkFrame(m, m', t.blocks, t.blocks, chains[c], k);
    hide Phys, NextPage, Bucket, Walk;
  }

  /** Keys translated by lookups since the last flush, invalidation or remapping. */
  ghost predicate LogOk(m: Mapping, blocks: seq<Block>, chains: seq<seq<nat>>, log: seq<Key>)
    requires |chains| == 0x8000
  {
    && (forall i, j :: 0 <= i < j < |log| ==> log[i] != log[j])
    && forall i :: 0 <= i < |log| ==> FullWalk(m, blocks, chains, log[i]) != Null
  }

  lemma {:induction false} LogAfterAdd(m: Mapping, t: Tables, chains: seq<seq<nat>>, log: seq<Key>, b: Block, h: nat)
    requires TablesOk(t, chains) && LogOk(m, t.blocks, chains, log)
    requires h == ChainFor(m, b.key) && h < 0x8000 && Match(m, b, b.key) && FullWalk(m, t.blocks, chains, b.key) == Null
    ensures LogOk(m, t.blocks + [b], AddChain(t, chains, h), log + [b.key])
  {
    hide FullWalk, Match, ChainFor;
    forall i | 0 <= i < |log| + 1
      ensures FullWalk(m, t.blocks + [b], AddChain(t, chains, h), (log + [b.key])[i]) != Null
    {
      AddFinds(m, t, chains, b, h, (log + [b.key])[i]);
    }
  }
}
