/**
 The lookup tables at work (cpu-exec.c:98-188): finding a block, generating one (exec.c:901-940,
 exec.c:1215-1246), invalidating one (exec.c:782-815), flushing (exec.c:638-672) and changing the
 code mapping (exec.c:1763-1808). Which blocks are invalidated while code is generated or runs
 is an input.
 */
module TbTables {
  import opened Common
  import opened TbHash
  import opened TbLookup
  import opened TbViews

  /** The loop of tb_find_slow. */
  method WalkChain(m: Mapping, t: Tables, k: Key, ghost chains: seq<seq<nat>>) returns (p: Ptr)
    requires TablesOk(t, chains)
    ensures p == FullWalk(m, t.blocks, chains, k)
  {
    var h := ChainFor(m, k);
    BucketRange(Phys(m, k.pc));
    ghost var chain := chains[h];
    assert Spells(t, chain, h) && Filed(t.blocks, chain, h);
    hide Match, Bucket, Phys, FiledAt;
    p := t.heads[h];
    ghost var i: nat := 0;
    assert chain[0..] == chain;
    while p != Null
      invariant i <= |chain| && p == At(chain, i) && Walk(m, t.blocks, chain[i..], k) == Walk(m, t.blocks, chain, k)
      decreases |chain| - i
    {
      assert chain[i..][1..] == chain[i + 1..];
      if Match(m, t.blocks[p.id], k) { return; }
      p := t.next[p.id];
      i := i + 1;
    }
  }

  /** Clear 64 slots from the start of a page's window. */
  method ClearWindow(cache0: seq<Ptr>, page: bv32) returns (cache: seq<Ptr>)
    requires |cache0| == 4096
    ensures |cache| == 4096
    ensures forall i :: 0 <= i < 4096 ==> cache[i] == if InWindow(page, i) then Null else cache0[i]
  {
    HashWindow(page, page);
    hide WindowStart, CacheSlot, PageOf;
    cache := cache0;
    var start := WindowStart(page);
    for n := 0 to 64
      invariant |cache| == 4096
      invariant forall i :: 0 <= i < 4096 ==> cache[i] == if start <= i < start + n then Null else cache0[i]
    {
      cache := cache[start + n := Null];
    }
  }

  class BlockTables {
    var t: Tables
    var cache: seq<Ptr>          // tb_jmp_cache
    var m: Mapping
    var invalidated: bool        // tb_invalidated_flag
    ghost var chains: seq<seq<nat>>
    ghost var log: seq<Key>

    ghost function Now(): View
      reads this
    {
      View(t, chains, cache)
    }

    /** The chains are in order and every cached block is filed. */
    ghost predicate Sound()
      reads this
    {
      InOrder(Now())
    }

    /** Also, every cached block is what a full walk would find, and no key was translated twice. */
    ghost predicate Valid()
      reads this
    {
      Sound() && Agrees(m, Now()) && LogOk(m, t.blocks, chains, log)
    }

    ghost function Find(k: Key): Ptr
      requires |chains| == 0x8000
      reads this
    {
      FullWalk(m, t.blocks, chains, k)
    }

    constructor (m: Mapping)
      ensures Valid() && Now() == Blank() && log == [] && this.m == m && !invalidated && forall k :: Find(k) == Null
    {
      this.m := m;
      this.t := Tables([], [], Empty(0x8000));
      cache := Empty(4096);
      invalidated := false;
      chains := NoChains();
      log := [];
      new;
      EmptyTables();
      CacheEmpty(m, t.blocks, chains);
    }

    /** tb_flush. */
    method Flush()
      modifies this`t, this`cache, this`chains, this`log
      ensures Valid() && Now() == Blank() && log == [] && forall k :: Find(k) == Null
    {
      EmptyTables();
      cache := Empty(4096);
      t := Tables([], [], Empty(0x8000));
      chains := NoChains();
      log := [];
      CacheEmpty(m, t.blocks, chains);
    }

    /** tb_phys_invalidate on the lookup tables, for a block that may have been invalidated before: then tb_remove
        runs off the end of its chain. */
    method Remove(id: nat) returns (found: bool)
      requires TablesOk(t, chains) && id < |t.blocks|
      modifies this`t, this`cache, this`chains, this`invalidated
      ensures found <==> LiveIn(old(Now()), id)
      ensures Now() == Killed(old(Now()), id) && (found ==> invalidated) && (!found ==> invalidated == old(invalidated))
    {
      var h := Bucket(FiledAt(t.blocks[id]));
      BucketRange(FiledAt(t.blocks[id]));
      assert Spells(t, chains[h], h) && Filed(t.blocks, chains[h], h);
      hide ChainsOk, Bucket, FiledAt, CacheSlot, Spells, Filed;
      var place;
      found, place := FindPlace(t, id, h, chains[h]);
      if found {
        CutOk(t, chains, h, IndexIn(chains[h], id));
        t := Write(t, place, t.next[id]);
        invalidated := true;
        cache := Dropped(cache, CacheSlot(t.blocks[id].key.pc), id);
        chains := chains[h := Without(chains[h], IndexIn(chains[h], id))];
      }
    }

    /** tb_phys_invalidate of a filed block. */
    method Invalidate(id: nat)
      requires Sound() && LiveIn(Now(), id)
      modifies this
      ensures Sound() && m == old(m) && invalidated && Now() == Killed(old(Now()), id) && t.blocks == old(t.blocks) &&
              log == []
      ensures OnlyGone(t.blocks, old(chains), chains, id) && StillFound(m, t.blocks, old(chains), chains, id)
      ensures old(Valid()) ==> Valid()
    {
      assert id < |t.blocks|;
      hide ChainsOk, CacheOk, CacheLive, Killed, OnlyGone, StillFound, Live;
      if Valid() { KilledAgrees(m, Now(), id); }
      KilledSound(Now(), id);
      KilledFinds(m, Now(), id);
      KilledInOrder(Now(), id);
      var found := Remove(id);
      log := [];
    }

    /** A run of invalidations. */
    method KillList(killed: seq<nat>)
      requires Sound() && CanKill(Now(), killed)
      modifies this
      ensures Sound() && m == old(m) && Now() == KilledAll(old(Now()), killed) && t.blocks == old(t.blocks)
      ensures invalidated == (old(invalidated) || killed != []) && log == if killed == [] then old(log) else []
      ensures AllGone(old(Now()), Now(), killed) && StillFoundAll(m, old(Now()), Now(), killed)
      ensures old(Valid()) ==> Valid()
    {
      hide ChainsOk, CacheOk, CacheLive, Killed, KilledAll, CanKill, AllGone, StillFoundAll, StillFound, OnlyGone,
           LogOk, LiveIn;
      ghost var v := Now();
      KilledNone(v);
      KilledAllFinds(m, v, killed);
      KilledAllSound(v, killed);
      assert killed[..0] == [] && killed[..|killed|] == killed;
      for i := 0 to |killed|
        invariant Sound() && m == old(m) && Now() == KilledAll(v, killed[..i])
        invariant invalidated == (old(invalidated) || i > 0) && log == if i == 0 then old(log) else []
        invariant old(Valid()) ==> Valid()
      {
        KilledNext(v, killed, i);
        Invalidate(killed[i]);
      }
    }

    /** tb_link_phys: the block goes to the front of its chain, whatever its key found before. */
    method LinkPhys(k: Key, extent: bv32) returns (id: nat)
      requires Sound() && extent < 0x400
      modifies this`t, this`chains, this`log
      ensures Sound() && FiledAs(m, old(Now()), Now(), k, extent)
      ensures id == |old(t.blocks)| && Find(k) == Tb(id) && log == old(log) + [k]
      ensures SameElsewhere(m, old(t.blocks), old(chains), t.blocks, chains, k)
      ensures old(Valid()) && old(Find(k)) == Null ==> Valid()
    {
      hide FullWalk, LogOk, SameElsewhere, ChainsOk, CacheOk, CacheLive;
      LinkedAs(m, Now(), log, k, extent);
      FiledInOrder(m, Now(), k, extent);
      var (b, h) := (Generated(m, k, extent), ChainFor(m, k));
      hide FiledAs, Agrees, Generated, ChainFor, TablesOk;
      id := |t.blocks|;
      log := log + [k];
      chains := AddChain(t, chains, h);
      t := Add(t, b, h);
    }

    /** tb_gen_code. A full block array is flushed first; generation may invalidate blocks. A key that found a block
        before now finds the new one. */
    method GenCode(k: Key, extent: bv32, full: bool, killed: seq<nat>) returns (id: nat)
      requires Sound() && extent < 0x400 && (if full then killed == [] else CanKill(Now(), killed))
      modifies this
      ensures Sound() && m == old(m) && Generates(m, old(Now()), Now(), k, extent, full, killed) && Find(k) == Tb(id)
      ensures id == |Base(old(Now()), full, killed).t.blocks| &&
              invalidated == (old(invalidated) || full || killed != [])
      ensures log == (if full || killed != [] then [] else old(log)) + [k]
      ensures !full ==> FoundElsewhere(m, old(Now()), Now(), k, killed)
      ensures full || (old(Valid()) && old(Find(k)) == Null) ==> Valid()
    {
      ghost var v := Now();
      hide FullWalk, LogOk, CacheOk, ChainsOk, CacheLive, Generated, ChainFor, CanKill, SameElsewhere;
      if full {
        Flush();
        assert Find(k) == Null;
        invalidated := true;
      } else {
        KillList(killed);
      }
      ghost var base := Now();
      if !full && FullWalk(m, v.t.blocks, v.chains, k) == Null { StillNull(m, v, base, k, killed); }
      id := LinkPhys(k, extent);
      if !full { FoundThrough(m, v, base, Now(), k, killed); }
    }

    /** tb_find_slow when its walk finds nothing. */
    method Translate(k: Key, extent: bv32, full: bool, killed: seq<nat>) returns (id: nat)
      requires Sound() && extent < 0x400 && Find(k) == Null && if full then killed == [] else CanKill(Now(), killed)
      modifies this
      ensures Sound() && m == old(m) && Find(k) == Tb(id) && Entered(Now(), k, id)
      ensures Translates(m, old(Now()), Now(), k, extent, full, killed, id)
      ensures invalidated == (old(invalidated) || full || killed != []) &&
              log == (if full || killed != [] then [] else old(log)) + [k]
      ensures old(Valid()) ==> Valid()
    {
      hide ChainsOk, FullWalk, LogOk, CacheOk, CacheLive, CacheSlot, Generates, FoundElsewhere, CanKill, Translates,
           Base;
      id := GenCode(k, extent, full, killed);
      ghost var v := Now();
      FoundLive(m, v, k);
      hide LiveIn;
      EnterCache(k, id);
      assert Now() == v.(cache := v.cache[CacheSlot(k.pc) := Tb(id)]);
      TranslatesNow(m, old(Now()), v, Now(), k, extent, full, killed, id);
    }

    /** tb_find_slow. */
    method FindSlow(k: Key, extent: bv32, full: bool, killed: seq<nat>) returns (id: nat, made: bool)
      requires Sound() && extent < 0x400 && (Find(k) == Null ==> if full then killed == [] else CanKill(Now(), killed))
      modifies this
      ensures Sound() && m == old(m) && Find(k) == Tb(id) && Entered(Now(), k, id) && (old(Valid()) ==> Valid())
      ensures made == (old(Find(k)) == Null)
      ensures !made ==>
                Tb(id) == old(Find(k)) && Now() == old(Now()).(cache := cache) && log == old(log) && !invalidated &&
                cache == old(cache)[CacheSlot(k.pc) := Tb(id)]
      ensures made ==>
                Translates(m, old(Now()), Now(), k, extent, full, killed, id) &&
                  invalidated == (full || killed != []) &&
                log == (if full || killed != [] then [] else old(log)) + [k]
    {
      invalidated := false;
      var p := WalkChain(m, t, k, chains);
      hide ChainsOk, FullWalk, LogOk, CacheOk, CacheLive, CacheSlot, CanKill, Translates;
      made := p == Null;
      if made {
        id := Translate(k, extent, full, killed);
      } else {
        id := p.id;
        FoundLive(m, Now(), k);
        hide LiveIn;
        EnterCache(k, id);
      }
    }

    /** The last step of tb_find_slow. */
    method EnterCache(k: Key, id: nat)
      requires Sound() && LiveIn(Now(), id) && t.blocks[id].key == k && Find(k) == Tb(id)
      modifies this`cache
      ensures Sound() && CacheSlot(k.pc) < |cache| == |old(cache)| && cache == old(cache)[CacheSlot(k.pc) := Tb(id)]
      ensures Entered(Now(), k, id) && (old(Valid()) ==> Valid())
    {
      HashWindow(k.pc, k.pc);
      hide WindowStart, CacheSlot, PageOf;
      StoreInOrder(Now(), id);
      hide ChainsOk, FullWalk, LogOk, CacheOk, CacheLive;
      if Valid() { CacheAfterStore(m, t.blocks, chains, cache, id); }
      cache := cache[CacheSlot(k.pc) := Tb(id)];
    }

    /** tb_find_fast: a filed block with the key. When the cache agrees with full walks it is the block a full walk
        finds, whether it came from the cache, from a chain or from the translator. */
    method FindFast(k: Key, extent: bv32, full: bool, killed: seq<nat>) returns (id: nat, slow: bool, made: bool)
      requires Sound() && extent < 0x400 && (Find(k) == Null ==> if full then killed == [] else CanKill(Now(), killed))
      modifies this
      ensures Sound() && m == old(m) && Entered(Now(), k, id)
      ensures old(Valid()) ==> Valid() && Find(k) == Tb(id) && (made <==> old(Find(k)) == Null)
      ensures slow == !Held(old(Now()), [], k) && made == (slow && old(Find(k)) == Null)
      ensures !slow ==> Now() == old(Now()) && log == old(log) && invalidated == old(invalidated)
      ensures slow && !made ==>
                Tb(id) == old(Find(k)) && Now() == old(Now()).(cache := cache) && log == old(log) && !invalidated &&
                cache == old(cache)[CacheSlot(k.pc) := Tb(id)]
      ensures made ==>
                Translates(m, old(Now()), Now(), k, extent, full, killed, id) &&
                  invalidated == (full || killed != []) &&
                log == (if full || killed != [] then [] else old(log)) + [k]
    {
      hide CacheSlot, ChainsOk, FullWalk, LogOk, CacheOk, CacheLive, CanKill, Translates, Held, Entered, LiveIn;
      CacheTest(m, Now(), k);
      var p := cache[CacheSlot(k.pc)];
      slow := p == Null || t.blocks[p.id].key != k;
      if slow {
        id, made := FindSlow(k, extent, full, killed);
      } else {
        id, made := p.id, false;
      }
    }

    /** tlb_flush, with any new mapping. */
    method FlushAll(m': Mapping)
      requires Sound()
      modifies this
      ensures Valid() && m == m' && t == old(t) && chains == old(chains) && invalidated == old(invalidated)
      ensures cache == Empty(4096)
    {
      m := m';
      cache := Empty(4096);
      log := [];
      CacheEmpty(m, t.blocks, chains);
    }

    /** tlb_flush_jmp_cache, when the page of addr gets a new mapping: two windows are enough. */
    method FlushPage(addr: bv32, m': Mapping)
      requires Sound() && RemapsOnly(m, m', addr)
      modifies this
      ensures Sound() && m == m' && t == old(t) && chains == old(chains) && invalidated == old(invalidated)
      ensures Flushed(old(cache), cache, addr) && (old(Valid()) ==> Valid())
    {
      hide TablesOk, RemapsOnly, InWindow, Cached;
      var once := ClearWindow(cache, addr - 0x400);
      var twice := ClearWindow(once, addr);
      if Valid() { CacheAfterRemap(m, m', t, chains, cache, twice, addr); }
      FlushedInOrder(Now(), twice, addr);
      cache := twice;
      m := m';
      log := [];
    }

    /** cpu_exec_nocache on the tables: generate a block, run it, invalidate it and free it. The run may invalidate
        filed blocks and the new block itself. The last invalidation finds the block exactly when the run did not
        invalidate it, and then the tables are the old ones without the blocks the run invalidated. Otherwise
        tb_remove walks off the chain. A run that leaves by a fault never comes back to remove the block. */
    method NoCache(k: Key, extent: bv32, full: bool, killed: seq<nat>, faulted: bool) returns (lost: bool)
      requires Sound() && extent < 0x400 && RunKills(Base(Now(), full, []), killed)
      modifies this
      ensures Sound() && m == old(m)
      ensures invalidated == (!faulted || old(invalidated) || full || killed != [])
      ensures lost == (!faulted && |Base(old(Now()), full, []).t.blocks| in killed)
      ensures !faulted && !lost ==>
                Now() == KilledAll(Base(old(Now()), full, []), killed) &&
                log == if full || killed != [] then [] else old(log)
      ensures faulted || lost ==>
                Running(Now(), Base(old(Now()), full, []), Generated(m, k, extent), ChainFor(m, k), killed)
      ensures old(Valid()) ==>
                var base := Base(old(Now()), full, []);
                (Valid() <==> !faulted || |base.t.blocks| in killed || !Held(base, killed, k))
    {
      ghost var v := Now();
      ghost var base := Base(v, full, []);
      BaseInOrder(v, full);
      NoneToKill(v);
      hide CanKill, Dup, KilledAll, Others, Spare, FullWalk, LogOk, CacheOk, ChainsOk, CacheLive;
      hide Generated, ChainFor, RunKills, Agrees, Base, FiledAs, Running, Held, InOrder, FoundElsewhere, ChainOf;
      ghost var log0 := log;
      var n := GenCode(k, extent, full, []);
      ghost var (b, h) := (Generated(m, k, extent), ChainFor(m, k));
      GeneratesDup(m, v, Now(), k, extent, full);
      hide Generates;
      lost := RunAndFree(n, killed, faulted, base, b, h);
      log := if full || killed != [] then [] else log0;
      if old(Valid()) { AfterOnce(m, v, Now(), k, extent, full, killed, log0, faulted || lost); }
    }

    /** The run of the newest block, and its removal if the run comes back. */
    method RunAndFree(n: nat, killed: seq<nat>, faulted: bool, ghost base: View, ghost b: Block, ghost h: nat)
        returns (lost: bool)
      requires InOrder(base) && RunKills(base, killed) && h == ChainOf(b) && h < 0x8000 && n == |base.t.blocks|
      requires Now() == Dup(base, b, h)
      modifies this`t, this`cache, this`chains, this`invalidated
      ensures Sound() && invalidated == (!faulted || old(invalidated) || killed != [])
      ensures lost == (!faulted && n in killed)
      ensures if faulted || lost then Running(Now(), base, b, h, killed) else Now() == KilledAll(base, killed)
    {
      hide InOrder, RunKills, KilledAll, ChainOf, Dup, Running;
      Run(killed, base, b, h);
      lost := false;
      if !faulted {
        lost := Free(n, killed, base, b, h);
      }
    }

    /** What the run of the newest block invalidates. */
    method Run(killed: seq<nat>, ghost base: View, ghost b: Block, ghost h: nat)
      requires InOrder(base) && RunKills(base, killed) && h == ChainOf(b) && h < 0x8000 && Now() == Dup(base, b, h)
      modifies this`t, this`cache, this`chains, this`invalidated
      ensures Sound() && Running(Now(), base, b, h, killed) && |t.blocks| == |base.t.blocks| + 1
      ensures invalidated == (old(invalidated) || killed != [])
    {
      hide TablesOk, CacheLive, RunKills, KilledAll, Killed, LiveIn, ChainOf, Others, Dup, Spare, Running;
      OkSizes(base);
      RunningFirst(base, b, h);
      assert killed[..0] == [] && killed[..|killed|] == killed;
      for i := 0 to |killed|
        invariant Running(Now(), base, b, h, killed[..i])
        invariant invalidated == (old(invalidated) || i > 0)
      {
        RunFront(base, killed, i);
        RunningStep(Now(), base, b, h, killed[..i], killed[i]);
        var found := Remove(killed[i]);
      }
      RunningSound(Now(), base, b, h, killed);
    }

    /** tb_phys_invalidate and tb_free of the newest block after its run. */
    method Free(n: nat, killed: seq<nat>, ghost base: View, ghost b: Block, ghost h: nat) returns (lost: bool)
      requires InOrder(base) && RunKills(base, killed) && h == ChainOf(b) && h < 0x8000 && n == |base.t.blocks|
      requires Running(Now(), base, b, h, killed) && (killed != [] ==> invalidated)
      modifies this`t, this`cache, this`chains, this`invalidated
      ensures Sound() && invalidated && lost == (n in killed)
      ensures if lost then Now() == old(Now()) else Now() == KilledAll(base, killed)
    {
      hide TablesOk, CacheLive, RunKills, KilledAll, Killed, LiveIn, ChainOf, Others, Dup, Spare;
      RunningSound(Now(), base, b, h, killed);
      ghost var v := KilledAll(base, Others(killed, n));
      ghost var last := Now();
      var found := Remove(n);
      lost := !found;
      if found {
        OthersOf(base, killed);
        OkSizes(v);
        KilledNew(v, b, h);
        SpareLast(v, b, v.t.heads[h]);
        t := Tables(t.blocks[..n], t.next[..n], t.heads);
      } else {
        KilledDead(last, n);
      }
    }
  }

  /** A block for one use that stores into its own code: the run invalidates it, and the invalidation after the run
      does not find it. */
  method SelfInvalidating(m: Mapping, k: Key) returns (lost: bool)
    ensures lost
  {
    var tables := new BlockTables(m);
    KilledNone(Blank());
    hide Agrees, LogOk, Generated, KilledAll, Spare, Dup, ChainFor;
    lost := tables.NoCache(k, 0, false, [0], false);
  }

  /** A block for one use that leaves by a fault stays in front of the block it stood in for: the cache and a full
      walk no longer agree. */
  method LeftBehind(m: Mapping, k: Key) returns (tables: BlockTables)
    ensures tables.Sound() && !tables.Valid() && Entered(tables.Now(), k, 0) && tables.Find(k) == Tb(1)
  {
    tables := new BlockTables(m);
    hide Agrees, LogOk, Generated, KilledAll, ChainFor, LiveIn, CacheSlot, FullWalk, CacheLive, ChainsOk, Running,
         Translates;
    assert tables.Find(k) == Null;
    var id, slow, made := tables.FindFast(k, 0, false, []);
    ghost var v := tables.Now();
    KilledNone(v);
    NoneToKill(Blank());
    EmptyTables();
    TranslatesLive(m, Blank(), v, k, 0, false, [], id);
    var lost := tables.NoCache(k, 0, false, [], true);
    OneUseLeft(m, v, tables.Now(), k, 0, []);
    StillEntered(m, v, tables.Now(), k, 0, id);
  }
}
