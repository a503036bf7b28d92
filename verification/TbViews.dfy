/**
 The lookup tables as a value: what invalidating a block, filing one and dropping one do to them.
 */
module TbViews {
  import opened Common
  import opened TbHash
  import opened TbLookup

  // ----- the tables as a value

  /** The tables, what their links mean, and the jump cache. */
  datatype View = View(t: Tables, chains: seq<seq<nat>>, cache: seq<Ptr>)

  function NoChains(): seq<seq<nat>> { seq(0x8000, _ => []) }

  /** What tb_flush leaves. */
  function Blank(): View { View(Tables([], [], Empty(0x8000)), NoChains(), Empty(4096)) }

  ghost predicate LiveIn(v: View, id: nat) { Live(v.t.blocks, v.chains, id) }

  /** The cache agrees with full walks. */
  ghost predicate Agrees(m: Mapping, v: View) {
    TablesOk(v.t, v.chains) && CacheOk(m, v.t.blocks, v.chains, v.cache)
  }

  ghost predicate InSlot(v: View, i: nat, id: nat) { LiveIn(v, id) && CacheSlot(v.t.blocks[id].key.pc) == i }

  /** Every cached block is filed and sits in its own slot. */
  ghost predicate CacheLive(v: View) {
    |v.cache| == 4096 && forall i :: 0 <= i < |v.cache| && v.cache[i].Tb? ==> InSlot(v, i, v.cache[i].id)
  }

  /** The tables are in order, whether or not the cache agrees with full walks. */
  ghost predicate InOrder(v: View) { TablesOk(v.t, v.chains) && CacheLive(v) }

  lemma {:induction false} AgreesInOrder(m: Mapping, v: View)
    requires Agrees(m, v)
    ensures InOrder(v)
  {
    hide CacheSlot;
    forall i | 0 <= i < |v.cache| && v.cache[i].Tb? ensures InSlot(v, i, v.cache[i].id) {
      assert Cached(m, v.t.blocks, v.chains, i, v.cache[i]);
      FoundLive(m, v, v.t.blocks[v.cache[i].id].key);
    }
  }

  /** What a walk finds is filed under the key. */
  lemma {:induction false} FoundLive(m: Mapping, v: View, k: Key)
    requires TablesOk(v.t, v.chains)
    ensures var w := FullWalk(m, v.t.blocks, v.chains, k); w.Tb? ==> LiveIn(v, w.id) && v.t.blocks[w.id].key == k
  {
    BucketRange(Phys(m, k.pc));
    var c := ChainFor(m, k);
    WalkFinds(m, v.t.blocks, v.chains[c], k);
    assert Filed(v.t.blocks, v.chains[c], c);
    hide Bucket, FiledAt, Phys, Walk;
  }

  function ChainOf(b: Block): nat { Bucket(FiledAt(b)) }

  /** tb_phys_invalidate: the block leaves its chain and its cache slot. */
  ghost function Killed(v: View, id: nat): View {
    if TablesOk(v.t, v.chains) && LiveIn(v, id) then
      var h := ChainOf(v.t.blocks[id]);
      var i := IndexIn(v.chains[h], id);
      CutOk(v.t, v.chains, h, i);
      View(Write(v.t, PlaceAt(v.chains[h], i, h), v.t.next[id]), v.chains[h := Without(v.chains[h], i)],
           Dropped(v.cache, CacheSlot(v.t.blocks[id].key.pc), id))
    else v
  }

  ghost function KilledAll(v: View, ids: seq<nat>): View {
    if ids == [] then v else Killed(KilledAll(v, ids[..|ids| - 1]), ids[|ids| - 1])
  }

  /** Different blocks that are all filed. */
  ghost predicate CanKill(v: View, ids: seq<nat>) {
    && (forall i :: 0 <= i < |ids| ==> LiveIn(v, ids[i]))
    && (forall i, j :: 0 <= i < j < |ids| ==> ids[i] != ids[j])
  }

  lemma {:induction false} KilledIs(v: View, id: nat)
    requires TablesOk(v.t, v.chains) && LiveIn(v, id)
    ensures var h := ChainOf(v.t.blocks[id]);
            && h < |v.chains| && id in v.chains[h] && InPlace(v.t, PlaceAt(v.chains[h], IndexIn(v.chains[h], id), h))
            && id < |v.t.next|
            && Killed(v, id).t == Write(v.t, PlaceAt(v.chains[h], IndexIn(v.chains[h], id), h), v.t.next[id])
            && Killed(v, id).chains == v.chains[h := Without(v.chains[h], IndexIn(v.chains[h], id))]
            && Killed(v, id).cache == Dropped(v.cache, CacheSlot(v.t.blocks[id].key.pc), id)
  {
    var h := ChainOf(v.t.blocks[id]);
    CutOk(v.t, v.chains, h, IndexIn(v.chains[h], id));
    hide ChainsOk, Bucket, FiledAt, CacheSlot;
  }

  lemma {:induction false} KilledSound(v: View, id: nat)
    requires TablesOk(v.t, v.chains) && LiveIn(v, id)
    ensures var w := Killed(v, id);
            TablesOk(w.t, w.chains) && w.t.blocks == v.t.blocks && OnlyGone(v.t.blocks, v.chains, w.chains, id)
  {
    var h := ChainOf(v.t.blocks[id]);
    var i := IndexIn(v.chains[h], id);
    hide ChainsOk, Bucket, FiledAt, OnlyGone;
    CutOk(v.t, v.chains, h, i);
    CutLive(v.t, v.chains, h, i);
  }

  lemma {:induction false} KilledInOrder(v: View, id: nat)
    requires InOrder(v) && LiveIn(v, id)
    ensures CacheLive(Killed(v, id))
  {
    KilledSound(v, id);
    KilledIs(v, id);
    var w := Killed(v, id);
    hide TablesOk, LiveIn, ChainOf, CacheSlot, Killed, IndexIn, Without, PlaceAt, Write;
    forall i | 0 <= i < |w.cache| && w.cache[i].Tb? ensures InSlot(w, i, w.cache[i].id) {
      assert v.cache[i] == w.cache[i] && InSlot(v, i, v.cache[i].id);
      assert Live(w.t.blocks, w.chains, w.cache[i].id);
    }
  }

  /** Invalidating a block changes nothing for keys that did not find it. */
  lemma {:induction false} KilledFinds(m: Mapping, v: View, id: nat)
    requires TablesOk(v.t, v.chains) && LiveIn(v, id)
    ensures |Killed(v, id).chains| == 0x8000 && StillFound(m, v.t.blocks, v.chains, Killed(v, id).chains, id)
  {
    KilledIs(v, id);
    var h := ChainOf(v.t.blocks[id]);
    hide ChainsOk, ChainOf, LiveIn, Killed, StillFound, CacheSlot, Write, PlaceAt;
    CutStillFound(m, v.t, v.chains, h, IndexIn(v.chains[h], id));
  }

  /** Invalidating a block keeps the cache in agreement. */
  lemma {:induction false} KilledAgrees(m: Mapping, v: View, id: nat)
    requires Agrees(m, v) && LiveIn(v, id)
    ensures Agrees(m, Killed(v, id))
  {
    var h := ChainOf(v.t.blocks[id]);
    var i := IndexIn(v.chains[h], id);
    KilledSound(v, id);
    hide ChainsOk, CacheOk, Bucket, FiledAt, OnlyGone, StillFound, CacheSlot;
    CutAll(m, v.t, v.chains, v.cache, h, i);
  }

  /** Exactly the listed blocks are no longer filed. */
  ghost predicate AllGone(v: View, w: View, ids: seq<nat>) {
    forall other :: LiveIn(w, other) <==> LiveIn(v, other) && other !in ids
  }

  lemma {:induction false} KilledAllSound(v: View, ids: seq<nat>)
    requires TablesOk(v.t, v.chains) && CanKill(v, ids)
    ensures var w := KilledAll(v, ids);
            TablesOk(w.t, w.chains) && w.t.blocks == v.t.blocks && AllGone(v, w, ids) &&
            (CacheLive(v) ==> CacheLive(w))
  {
    hide TablesOk, Killed, CacheLive, LiveIn;
    if ids != [] {
      var (init, id) := (ids[..|ids| - 1], ids[|ids| - 1]);
      KilledAllSound(v, init);
      var u := KilledAll(v, init);
      assert id !in init;
      assert LiveIn(u, id);
      KilledSound(u, id);
      if CacheLive(v) { KilledInOrder(u, id); }
      GoneMore(v, u, Killed(u, id), init, id);
      assert ids == init + [id];
    }
  }

  lemma {:induction false} GoneMore(v: View, u: View, w: View, ids: seq<nat>, id: nat)
    requires AllGone(v, u, ids) && w.t.blocks == u.t.blocks && OnlyGone(u.t.blocks, u.chains, w.chains, id)
    ensures AllGone(v, w, ids + [id])
  {
    hide Live;
  }

  /** The keys that found none of the blocks find what they found before. */
  ghost predicate StillFoundAll(m: Mapping, v: View, w: View, ids: seq<nat>)
    requires |v.chains| == |w.chains| == 0x8000
  {
    forall k :: Spared(FullWalk(m, v.t.blocks, v.chains, k), ids) ==>
                FullWalk(m, w.t.blocks, w.chains, k) == FullWalk(m, v.t.blocks, v.chains, k)
  }

  predicate Spared(p: Ptr, ids: seq<nat>) { p.Tb? ==> p.id !in ids }

  lemma {:induction false} KilledAllAgrees(m: Mapping, v: View, ids: seq<nat>)
    requires Agrees(m, v) && CanKill(v, ids)
    ensures Agrees(m, KilledAll(v, ids))
  {
    hide FullWalk, ChainsOk, CacheOk, Killed, LiveIn, AllGone;
    if ids != [] {
      var (init, id) := (ids[..|ids| - 1], ids[|ids| - 1]);
      KilledNext(v, ids, |ids| - 1);
      assert ids[..|ids|] == ids;
      KilledAllAgrees(m, v, init);
      KilledAgrees(m, KilledAll(v, init), id);
    }
  }

  lemma {:induction false} KilledAllFinds(m: Mapping, v: View, ids: seq<nat>)
    requires TablesOk(v.t, v.chains) && CanKill(v, ids)
    ensures |KilledAll(v, ids).chains| == 0x8000 && StillFoundAll(m, v, KilledAll(v, ids), ids)
  {
    hide FullWalk, ChainsOk, Killed, LiveIn, AllGone, StillFound;
    if ids != [] {
      var (init, id) := (ids[..|ids| - 1], ids[|ids| - 1]);
      KilledNext(v, ids, |ids| - 1);
      assert ids[..|ids|] == ids && ids == init + [id];
      KilledAllFinds(m, v, init);
      KilledAllSound(v, init);
      var u := KilledAll(v, init);
      KilledFinds(m, u, id);
      KilledSound(u, id);
      FoundMore(m, v, u, Killed(u, id), init, id);
    }
  }

  lemma {:induction false} FoundMore(m: Mapping, v: View, u: View, w: View, ids: seq<nat>, id: nat)
    requires |v.chains| == |u.chains| == |w.chains| == 0x8000 && w.t.blocks == u.t.blocks
    requires StillFoundAll(m, v, u, ids) && StillFound(m, u.t.blocks, u.chains, w.chains, id)
    ensures StillFoundAll(m, v, w, ids + [id])
  {
    hide FullWalk;
  }

  // ----- a block filed in front of its chain, and a block left over in the array

  ghost function Dup(v: View, b: Block, h: nat): View
    requires h < |v.t.heads| && h < |v.chains|
  {
    View(Add(v.t, b, h), AddChain(v.t, v.chains, h), v.cache)
  }

  ghost function Spare(v: View, b: Block, x: Ptr): View {
    View(Tables(v.t.blocks + [b], v.t.next + [x], v.t.heads), v.chains, v.cache)
  }

  lemma {:induction false} SpareSound(v: View, b: Block, x: Ptr)
    requires TablesOk(v.t, v.chains)
    ensures TablesOk(Spare(v, b, x).t, v.chains)
    ensures forall id: nat :: id < |v.t.blocks| ==> (LiveIn(Spare(v, b, x), id) <==> LiveIn(v, id))
    ensures !LiveIn(Spare(v, b, x), |v.t.blocks|)
  {
    var w := Spare(v, b, x);
    hide Bucket, FiledAt;
    forall h | 0 <= h < |v.chains| ensures Spells(w.t, v.chains[h], h) && Filed(w.t.blocks, v.chains[h], h) {
      assert Spells(v.t, v.chains[h], h) && Filed(v.t.blocks, v.chains[h], h);
      SpareChain(v.t, b, x, v.chains[h], h);
    }
    var h := ChainOf(b);
    if h < |v.chains| { assert Filed(v.t.blocks, v.chains[h], h); }
  }

  lemma {:induction false} SpareChain(t: Tables, b: Block, x: Ptr, chain: seq<nat>, h: nat)
    requires |t.next| == |t.blocks| && Spells(t, chain, h) && Filed(t.blocks, chain, h)
    ensures var s := Tables(t.blocks + [b], t.next + [x], t.heads); Spells(s, chain, h) && Filed(s.blocks, chain, h)
  {
    hide Bucket, FiledAt;
    var s := Tables(t.blocks + [b], t.next + [x], t.heads);
    forall i | 0 <= i < |chain| ensures s.next[chain[i]] == At(chain, i + 1) {
      assert t.next[chain[i]] == At(chain, i + 1);
    }
  }

  lemma {:induction false} DupSound(v: View, b: Block, h: nat)
    requires TablesOk(v.t, v.chains) && h == ChainOf(b) && h < 0x8000
    ensures TablesOk(Dup(v, b, h).t, Dup(v, b, h).chains)
    ensures forall id: nat :: id < |v.t.blocks| ==> (LiveIn(Dup(v, b, h), id) <==> LiveIn(v, id))
    ensures LiveIn(Dup(v, b, h), |v.t.blocks|)
  {
    AddOk(v.t, v.chains, b, h);
    hide ChainsOk, Bucket, FiledAt;
  }

  /** A new block at the end of the array leaves the cache in order. */
  lemma {:induction false} FrontLive(v: View, w: View)
    requires CacheLive(v) && w.cache == v.cache && |v.t.blocks| <= |w.t.blocks| &&
             w.t.blocks[..|v.t.blocks|] == v.t.blocks
    requires forall id: nat :: id < |v.t.blocks| ==> (LiveIn(w, id) <==> LiveIn(v, id))
    ensures CacheLive(w)
  {
    hide CacheSlot, Bucket, FiledAt;
    forall i | 0 <= i < |w.cache| && w.cache[i].Tb? ensures InSlot(w, i, w.cache[i].id) {
      var id := v.cache[i].id;
      assert InSlot(v, i, id);
      assert w.t.blocks[..|v.t.blocks|][id] == v.t.blocks[id];
    }
  }

  lemma {:induction false} IndexBehind(n: nat, chain: seq<nat>, id: nat)
    requires id in chain && id != n
    ensures id in [n] + chain && IndexIn([n] + chain, id) == 1 + IndexIn(chain, id)
    ensures Without([n] + chain, 1 + IndexIn(chain, id)) == [n] + Without(chain, IndexIn(chain, id))
  {
    assert ([n] + chain)[1..] == chain;
  }

  /** Invalidating another block first and filing the new one after is the same. */
  lemma {:induction false} KilledDup(v: View, b: Block, h: nat, id: nat)
    requires TablesOk(v.t, v.chains) && LiveIn(v, id) && h == ChainOf(b) && h < 0x8000
    ensures TablesOk(Killed(v, id).t, Killed(v, id).chains) && Killed(Dup(v, b, h), id) == Dup(Killed(v, id), b, h)
  {
    hide TablesOk, Killed, LiveIn, OnlyGone, Dup, ChainOf;
    KilledSound(v, id);
    KilledDupTables(v, b, h, id);
    KilledDupChains(v, b, h, id);
  }

  /** Killed on the view with the new block in front, in terms of the view without it. */
  lemma {:induction false} KilledDupIs(v: View, b: Block, h: nat, id: nat)
    requires TablesOk(v.t, v.chains) && LiveIn(v, id) && h == ChainOf(b) && h < 0x8000
    ensures var (g, n, w) := (ChainOf(v.t.blocks[id]), |v.t.blocks|, Killed(Dup(v, b, h), id));
            && g < |v.chains| && id in v.chains[g] && id < n
            && var i := IndexIn(v.chains[g], id);
               var place := if g == h then PlaceAt([n] + v.chains[g], i + 1, g) else PlaceAt(v.chains[g], i, g);
               && InPlace(Add(v.t, b, h), place) && w.t == Write(Add(v.t, b, h), place, Add(v.t, b, h).next[id])
               && w.cache == Dropped(v.cache, CacheSlot(v.t.blocks[id].key.pc), id)
               && var cut := Without(v.chains[g], i);
                  w.chains == AddChain(v.t, v.chains, h)[g := if g == h then [n] + cut else cut]
  {
    DupSound(v, b, h);
    KilledIs(v, id);
    KilledIs(Dup(v, b, h), id);
    var (g, n) := (ChainOf(v.t.blocks[id]), |v.t.blocks|);
    assert ChainOf(Dup(v, b, h).t.blocks[id]) == g;
    hide ChainsOk, CacheSlot, Killed, LiveIn, ChainOf, Write, Dropped;
    if g == h { IndexBehind(n, v.chains[h], id); }
    hide PlaceAt, Without, IndexIn;
  }

  lemma {:induction false} KilledDupTables(v: View, b: Block, h: nat, id: nat)
    requires TablesOk(v.t, v.chains) && LiveIn(v, id) && h == ChainOf(b) && h < 0x8000
    ensures h < |Killed(v, id).t.heads| && h < |Killed(v, id).chains|
    ensures Killed(Dup(v, b, h), id).t == Dup(Killed(v, id), b, h).t
  {
    KilledIs(v, id);
    var g := ChainOf(v.t.blocks[id]);
    assert Spells(v.t, v.chains[g], g) && Filed(v.t.blocks, v.chains[g], g);
    hide ChainsOk, CacheSlot, Killed, LiveIn, Spells, Filed, ChainOf, Dropped, Without;
    KilledDupIs(v, b, h, id);
    hide PlaceAt, AddChain;
    DupWrite(v.t, v.chains[g], b, h, g, IndexIn(v.chains[g], id));
  }

  lemma {:induction false} KilledDupChains(v: View, b: Block, h: nat, id: nat)
    requires TablesOk(v.t, v.chains) && LiveIn(v, id) && h == ChainOf(b) && h < 0x8000
    ensures h < |Killed(v, id).t.heads| && h < |Killed(v, id).chains|
    ensures Killed(Dup(v, b, h), id).chains == Dup(Killed(v, id), b, h).chains
    ensures Killed(Dup(v, b, h), id).cache == Dup(Killed(v, id), b, h).cache
  {
    KilledIs(v, id);
    KilledSound(v, id);
    hide ChainsOk, CacheSlot, Killed, LiveIn, ChainOf, OnlyGone, Write, Dropped, Without;
    KilledDupIs(v, b, h, id);
    var g := ChainOf(v.t.blocks[id]);
    ChainsCommute(v.chains, h, g, |v.t.blocks|, Without(v.chains[g], IndexIn(v.chains[g], id)));
  }

  lemma {:induction false} ChainsCommute(chains: seq<seq<nat>>, h: nat, g: nat, n: nat, cut: seq<nat>)
    requires h < |chains| && g < |chains|
    ensures chains[h := [n] + chains[h]][g := if g == h then [n] + cut else cut]
         == chains[g := cut][h := [n] + chains[g := cut][h]]
  {}

  lemma {:induction false} DupWrite(t: Tables, chain: seq<nat>, b: Block, h: nat, g: nat, i: nat)
    requires |t.next| == |t.blocks| && h < |t.heads| && Spells(t, chain, g) && Filed(t.blocks, chain, g) && i < |chain|
    requires InPlace(t, PlaceAt(chain, i, g))
    ensures var (n, id) := (|t.blocks|, chain[i]);
            var place := if g == h then PlaceAt([n] + chain, i + 1, g) else PlaceAt(chain, i, g);
            InPlace(Add(t, b, h), place) && id < n &&
            Write(Add(t, b, h), place, Add(t, b, h).next[id]) == Add(Write(t, PlaceAt(chain, i, g), t.next[id]), b, h)
  {
    hide Bucket, FiledAt;
    var (n, id) := (|t.blocks|, chain[i]);
    assert t.next[chain[i]] == At(chain, i + 1);
    var place := if g == h then PlaceAt([n] + chain, i + 1, g) else PlaceAt(chain, i, g);
    var (x, y) := (Write(Add(t, b, h), place, Add(t, b, h).next[id]),
                   Add(Write(t, PlaceAt(chain, i, g), t.next[id]), b, h));
    assert x.next == y.next && x.heads == y.heads;
  }

  lemma {:induction false} NotCached(v: View, n: nat, slot: nat)
    requires CacheLive(v) && n >= |v.t.blocks|
    ensures Dropped(v.cache, slot, n) == v.cache
  {
    hide CacheSlot, Bucket, FiledAt;
    assert slot < |v.cache| && v.cache[slot].Tb? ==> InSlot(v, slot, v.cache[slot].id);
  }

  /** Invalidating the new block leaves it over in the array and nothing else. */
  lemma {:induction false} KilledNew(v: View, b: Block, h: nat)
    requires TablesOk(v.t, v.chains) && CacheLive(v) && h == ChainOf(b) && h < 0x8000
    ensures h < |v.t.heads| && Killed(Dup(v, b, h), |v.t.blocks|) == Spare(v, b, v.t.heads[h])
  {
    var n := |v.t.blocks|;
    NotCached(v, n, CacheSlot(b.key.pc));
    OkSizes(v);
    hide CacheSlot, TablesOk, LiveIn, CacheLive, ChainOf, Killed, Write, Add, Dup, Dropped;
    KilledFront(v, b, h);
    FrontWrite(v.t, b, h);
    ChainBack(v.chains, h, [n] + v.chains[h]);
  }

  lemma {:induction false} KilledFront(v: View, b: Block, h: nat)
    requires TablesOk(v.t, v.chains) && h == ChainOf(b) && h < 0x8000
    ensures h < |v.t.heads| && InPlace(Add(v.t, b, h), Head(h)) && |v.t.blocks| < |Add(v.t, b, h).next| &&
            h < |v.chains|
    ensures var (w, n) := (Killed(Dup(v, b, h), |v.t.blocks|), |v.t.blocks|);
            && w.t == Write(Add(v.t, b, h), Head(h), Add(v.t, b, h).next[n])
            && w.chains == v.chains[h := [n] + v.chains[h]][h := v.chains[h]]
            && w.cache == Dropped(v.cache, CacheSlot(b.key.pc), n)
  {
    var n := |v.t.blocks|;
    DupSound(v, b, h);
    OkSizes(v);
    FrontCut(n, v.chains[h]);
    assert Dup(v, b, h).t.blocks[n] == b;
    hide CacheSlot, TablesOk, LiveIn, ChainOf, Killed, IndexIn, Without, Write, Dropped;
    KilledIs(Dup(v, b, h), n);
  }

  lemma {:induction false} FrontWrite(t: Tables, b: Block, h: nat)
    requires h < |t.heads| && |t.next| == |t.blocks|
    ensures InPlace(Add(t, b, h), Head(h)) && |t.blocks| < |Add(t, b, h).next|
    ensures Write(Add(t, b, h), Head(h), Add(t, b, h).next[|t.blocks|])
         == Tables(t.blocks + [b], t.next + [t.heads[h]], t.heads)
  {
    assert t.heads[h := Tb(|t.blocks|)][h := t.heads[h]] == t.heads;
  }

  lemma {:induction false} ChainBack(chains: seq<seq<nat>>, h: nat, chain: seq<nat>)
    requires h < |chains|
    ensures chains[h := chain][h := chains[h]] == chains
  {}

  lemma {:induction false} FrontCut(n: nat, chain: seq<nat>)
    ensures IndexIn([n] + chain, n) == 0 && Without([n] + chain, 0) == chain
  {}

  lemma {:induction false} KilledSpare(v: View, b: Block, x: Ptr, id: nat)
    requires TablesOk(v.t, v.chains) && LiveIn(v, id)
    ensures Killed(Spare(v, b, x), id) == Spare(Killed(v, id), b, x)
  {
    SpareSound(v, b, x);
    KilledSound(v, id);
    var g := ChainOf(v.t.blocks[id]);
    var i := IndexIn(v.chains[g], id);
    CutOk(v.t, v.chains, g, i);
    assert Spells(v.t, v.chains[g], g) && Filed(v.t.blocks, v.chains[g], g);
    SpareWrite(v.t, v.chains[g], b, x, g, i);
    hide ChainsOk, Bucket, FiledAt, Spells, Filed, CacheSlot;
  }

  lemma {:induction false} SpareWrite(t: Tables, chain: seq<nat>, b: Block, x: Ptr, g: nat, i: nat)
    requires |t.next| == |t.blocks| && Spells(t, chain, g) && Filed(t.blocks, chain, g) && i < |chain|
    requires InPlace(t, PlaceAt(chain, i, g))
    ensures var s := Tables(t.blocks + [b], t.next + [x], t.heads);
            var id := chain[i];
            var w := Write(t, PlaceAt(chain, i, g), t.next[id]);
            InPlace(s, PlaceAt(chain, i, g)) &&
            Write(s, PlaceAt(chain, i, g), s.next[id]) == Tables(w.blocks + [b], w.next + [x], w.heads)
  {
    hide Bucket, FiledAt;
    var s := Tables(t.blocks + [b], t.next + [x], t.heads);
    var w := Write(t, PlaceAt(chain, i, g), t.next[chain[i]]);
    assert Write(s, PlaceAt(chain, i, g), s.next[chain[i]]).next == w.next + [x];
  }

  lemma {:induction false} EmptyTables()
    ensures InOrder(Blank()) && forall id :: !LiveIn(Blank(), id)
  {}

  /** The blocks run without the new one, in order. */
  function Others(ids: seq<nat>, n: nat): seq<nat> {
    if ids == [] then [] else Others(ids[..|ids| - 1], n) + if ids[|ids| - 1] == n then [] else [ids[|ids| - 1]]
  }

  /** The tables a new block is filed in: flushed, or without the blocks its generation invalidates. */
  ghost function Base(v: View, full: bool, killed: seq<nat>): View { if full then Blank() else KilledAll(v, killed) }

  // ----- a block for one use

  /** The blocks a run of the new block n may invalidate: filed ones and itself, each once. */
  ghost predicate RunKills(base: View, ids: seq<nat>) {
    && (forall i :: 0 <= i < |ids| ==> ids[i] == |base.t.blocks| || LiveIn(base, ids[i]))
    && (forall i, j :: 0 <= i < j < |ids| ==> ids[i] != ids[j])
  }

  lemma {:induction false} OthersAre(ids: seq<nat>, n: nat)
    requires forall i, j :: 0 <= i < j < |ids| ==> ids[i] != ids[j]
    ensures forall x :: x in Others(ids, n) <==> x in ids && x != n
    ensures forall i, j :: 0 <= i < j < |Others(ids, n)| ==> Others(ids, n)[i] != Others(ids, n)[j]
    ensures n !in ids ==> Others(ids, n) == ids
  {
    if ids != [] {
      var (init, last) := (ids[..|ids| - 1], ids[|ids| - 1]);
      assert ids == init + [last] && last !in init;
      OthersAre(init, n);
    }
  }

  lemma {:induction false} OthersKillable(base: View, ids: seq<nat>)
    requires RunKills(base, ids)
    ensures CanKill(base, Others(ids, |base.t.blocks|))
  {
    var (n, o) := (|base.t.blocks|, Others(ids, |base.t.blocks|));
    OthersAre(ids, n);
    hide LiveIn, Others;
    forall i | 0 <= i < |o| ensures LiveIn(base, o[i]) {
      assert o[i] in o;
      var j :| 0 <= j < |ids| && ids[j] == o[i];
    }
  }

  /** The tables while the new block runs: the base without the blocks invalidated so far, and the new block in
      front of its chain, or only in the array once it has invalidated itself. */
  ghost predicate Running(now: View, base: View, b: Block, h: nat, ids: seq<nat>) {
    Shows(now, KilledAll(base, Others(ids, |base.t.blocks|)), b, h, |base.t.blocks| in ids)
  }

  ghost predicate Shows(now: View, v: View, b: Block, h: nat, gone: bool) {
    && h < |v.t.heads| && h < |v.chains| && |v.t.blocks| < |now.t.next|
    && now == if gone then Spare(v, b, now.t.next[|v.t.blocks|]) else Dup(v, b, h)
  }

  lemma {:induction false} RunningSound(now: View, base: View, b: Block, h: nat, ids: seq<nat>)
    requires InOrder(base) && RunKills(base, ids) && h == ChainOf(b) && h < 0x8000 && Running(now, base, b, h, ids)
    ensures var (n, v) := (|base.t.blocks|, KilledAll(base, Others(ids, |base.t.blocks|)));
            && InOrder(v) && v.t.blocks == base.t.blocks
            && AllGone(base, v, Others(ids, n)) && InOrder(now) && |now.t.blocks| == n + 1
            && (LiveIn(now, n) <==> n !in ids) && forall id: nat :: id < n ==> (LiveIn(now, id) <==> LiveIn(v, id))
  {
    hide ChainOf, LiveIn, CacheLive, TablesOk, CanKill, AllGone;
    var (n, v) := (|base.t.blocks|, KilledAll(base, Others(ids, |base.t.blocks|)));
    OthersKillable(base, ids);
    KilledAllSound(base, Others(ids, n));
    if n in ids {
      SpareSound(v, b, now.t.next[n]);
    } else {
      DupSound(v, b, h);
    }
    FrontLive(v, now);
  }

  /** One more invalidation while the new block runs. */
  lemma {:induction false} RunningStep(now: View, base: View, b: Block, h: nat, ids: seq<nat>, id: nat)
    requires InOrder(base) && RunKills(base, ids + [id]) && h == ChainOf(b) && h < 0x8000
    requires Running(now, base, b, h, ids)
    ensures RunKills(base, ids) && InOrder(now) && LiveIn(now, id) && id < |now.t.blocks|
    ensures Running(Killed(now, id), base, b, h, ids + [id])
  {
    var (n, v) := (|base.t.blocks|, KilledAll(base, Others(ids, |base.t.blocks|)));
    PrefixKills(base, ids, id);
    RunningSound(now, base, b, h, ids);
    OthersAre(ids, n);
    hide ChainOf, LiveIn, TablesOk, CacheLive, Killed, KilledAll, Others, RunKills, Dup, Spare, Running;
    if id == n { RanItself(now, base, b, h, ids); } else { RanOther(now, base, b, h, ids, id); }
  }

  lemma {:induction false} RanItself(now: View, base: View, b: Block, h: nat, ids: seq<nat>)
    requires Running(now, base, b, h, ids) && |base.t.blocks| !in ids && h == ChainOf(b) && h < 0x8000
    requires var v := KilledAll(base, Others(ids, |base.t.blocks|)); InOrder(v) && v.t.blocks == base.t.blocks
    ensures Running(Killed(now, |base.t.blocks|), base, b, h, ids + [|base.t.blocks|])
  {
    var n := |base.t.blocks|;
    OthersNext(ids, n, n);
    hide ChainOf, LiveIn, TablesOk, CacheLive, Killed, KilledAll, Others, Dup, Spare;
    var v := KilledAll(base, Others(ids, n));
    OkSizes(v);
    KilledNew(v, b, h);
    SpareLast(v, b, v.t.heads[h]);
  }

  lemma {:induction false} RanOther(now: View, base: View, b: Block, h: nat, ids: seq<nat>, id: nat)
    requires Running(now, base, b, h, ids) && id != |base.t.blocks| && h == ChainOf(b) && h < 0x8000
    requires var v := KilledAll(base, Others(ids, |base.t.blocks|));
             TablesOk(v.t, v.chains) && LiveIn(v, id) && v.t.blocks == base.t.blocks
    ensures Running(Killed(now, id), base, b, h, ids + [id])
  {
    var n := |base.t.blocks|;
    OthersNext(ids, id, n);
    hide ChainOf, LiveIn, TablesOk, Killed, KilledAll, Others, Shows;
    KilledOne(base, Others(ids, n), id);
    assert n in ids + [id] <==> n in ids;
    ShowsStep(now, KilledAll(base, Others(ids, n)), b, h, n in ids, id);
  }

  lemma {:induction false} ShowsStep(now: View, v: View, b: Block, h: nat, gone: bool, id: nat)
    requires TablesOk(v.t, v.chains) && LiveIn(v, id) && h == ChainOf(b) && h < 0x8000 && Shows(now, v, b, h, gone)
    ensures Shows(Killed(now, id), Killed(v, id), b, h, gone)
  {
    hide ChainOf, LiveIn, TablesOk, Killed, Dup, Spare;
    if gone { SpareStep(v, b, now.t.next[|v.t.blocks|], id); } else { DupStep(v, b, h, id); }
  }

  lemma {:induction false} SpareStep(v: View, b: Block, x: Ptr, id: nat)
    requires TablesOk(v.t, v.chains) && LiveIn(v, id)
    ensures var (w, n) := (Killed(Spare(v, b, x), id), |v.t.blocks|);
            |Killed(v, id).t.heads| == |Killed(v, id).chains| == 0x8000 && |Killed(v, id).t.blocks| == n &&
            n < |w.t.next| && w == Spare(Killed(v, id), b, w.t.next[n])
  {
    KilledSound(v, id);
    hide ChainsOk, LiveIn, Killed, Spare;
    KilledSpare(v, b, x, id);
    SpareLast(Killed(v, id), b, x);
  }

  lemma {:induction false} DupStep(v: View, b: Block, h: nat, id: nat)
    requires TablesOk(v.t, v.chains) && LiveIn(v, id) && h == ChainOf(b) && h < 0x8000
    ensures var (w, n) := (Killed(Dup(v, b, h), id), |v.t.blocks|);
            |Killed(v, id).t.heads| == |Killed(v, id).chains| == 0x8000 && |Killed(v, id).t.blocks| == n &&
            n < |w.t.next| && w == Dup(Killed(v, id), b, h)
  {
    KilledSound(v, id);
    hide ChainsOk, LiveIn, Killed, Dup, ChainOf;
    KilledDup(v, b, h, id);
    DupLast(Killed(v, id), b, h);
  }

  lemma {:induction false} DupLast(v: View, b: Block, h: nat)
    requires h < |v.t.heads| && h < |v.chains| && |v.t.next| == |v.t.blocks|
    ensures |Dup(v, b, h).t.next| == |v.t.blocks| + 1
  {}

  lemma {:induction false} PrefixKills(base: View, ids: seq<nat>, id: nat)
    requires RunKills(base, ids + [id])
    ensures RunKills(base, ids) && id !in ids && (id == |base.t.blocks| || LiveIn(base, id)) &&
            (LiveIn(base, id) ==> id < |base.t.blocks|)
  {
    hide Bucket, FiledAt;
    var all := ids + [id];
    assert all[|ids|] == id;
    forall i | 0 <= i < |ids| ensures ids[i] == |base.t.blocks| || LiveIn(base, ids[i]) { assert all[i] == ids[i]; }
    forall i, j | 0 <= i < j < |ids| ensures ids[i] != ids[j] { assert all[i] == ids[i] && all[j] == ids[j]; }
    forall i | 0 <= i < |ids| ensures ids[i] != id { assert all[i] == ids[i]; }
  }

  lemma {:induction false} OthersNext(ids: seq<nat>, id: nat, n: nat)
    ensures Others(ids + [id], n) == if id == n then Others(ids, n) else Others(ids, n) + [id]
  {
    assert (ids + [id])[..|ids|] == ids;
  }

  lemma {:induction false} KilledOne(v: View, ids: seq<nat>, id: nat)
    ensures KilledAll(v, ids + [id]) == Killed(KilledAll(v, ids), id)
  {
    assert (ids + [id])[..|ids|] == ids;
    hide Killed;
  }

  lemma {:induction false} BaseInOrder(v: View, full: bool)
    requires InOrder(v)
    ensures InOrder(Base(v, full, []))
  {
    EmptyTables();
    hide CacheLive, TablesOk, Blank;
  }

  lemma {:induction false} BaseAgrees(m: Mapping, v: View, full: bool)
    requires Agrees(m, v)
    ensures Agrees(m, Base(v, full, []))
  {
    EmptyTables();
    CacheEmpty(m, Blank().t.blocks, Blank().chains);
    hide CacheOk, TablesOk, Blank;
  }

  lemma {:induction false} RunningFirst(base: View, b: Block, h: nat)
    requires h < |base.t.heads| && h < |base.chains|
    requires |base.t.next| == |base.t.blocks|
    ensures Running(Dup(base, b, h), base, b, h, [])
  {
    DupLast(base, b, h);
    hide Dup;
  }

  lemma {:induction false} RunFront(base: View, ids: seq<nat>, i: nat)
    requires RunKills(base, ids) && i < |ids|
    ensures RunKills(base, ids[..i] + [ids[i]]) && ids[..i + 1] == ids[..i] + [ids[i]]
  {
    hide LiveIn;
    assert ids[..i + 1] == ids[..i] + [ids[i]];
  }

  lemma {:induction false} OthersOf(base: View, ids: seq<nat>)
    requires RunKills(base, ids) && |base.t.blocks| !in ids
    ensures Others(ids, |base.t.blocks|) == ids
  {
    hide LiveIn;
    OthersAre(ids, |base.t.blocks|);
  }

  lemma {:induction false} SpareLast(v: View, b: Block, x: Ptr)
    requires |v.t.next| == |v.t.blocks|
    ensures var (s, n) := (Spare(v, b, x), |v.t.blocks|);
            |s.t.blocks| == |s.t.next| == n + 1 && s.t.next[n] == x &&
            View(Tables(s.t.blocks[..n], s.t.next[..n], s.t.heads), s.chains, s.cache) == v
  {}

  lemma {:induction false} KilledDead(v: View, id: nat)
    requires !LiveIn(v, id)
    ensures Killed(v, id) == v
  {}

  lemma {:induction false} OkSizes(v: View)
    requires TablesOk(v.t, v.chains)
    ensures |v.t.heads| == |v.chains| == 0x8000 && |v.t.next| == |v.t.blocks|
  {}

  lemma {:induction false} NoneToKill(v: View)
    ensures CanKill(v, [])
  {}

  lemma {:induction false} GeneratesDup(m: Mapping, v: View, w: View, k: Key, extent: bv32, full: bool)
    requires Generates(m, v, w, k, extent, full, [])
    ensures var (base, b, h) := (Base(v, full, []), Generated(m, k, extent), ChainFor(m, k));
            h == ChainOf(b) && h < |base.t.heads| == |base.chains| == 0x8000 && w == Dup(base, b, h)
  {
    hide Generated, ChainFor, ChainOf, Base, Dup, TablesOk;
  }

  /** When the cache agrees with full walks after a one-use block: removed, or left in the tables. */
  lemma {:induction false} AfterOnce(m: Mapping, v: View, w: View, k: Key, extent: bv32, full: bool, killed: seq<nat>,
                                     log: seq<Key>, stays: bool)
    requires Agrees(m, v) && RunKills(Base(v, full, []), killed) && extent < 0x400
    requires LogOk(m, v.t.blocks, v.chains, log)
    requires var base := Base(v, full, []);
             if stays then Running(w, base, Generated(m, k, extent), ChainFor(m, k), killed)
             else |base.t.blocks| !in killed && w == KilledAll(base, killed)
    ensures |w.chains| == 0x8000 && LogOk(m, w.t.blocks, w.chains, if full || killed != [] then [] else log)
    ensures var base := Base(v, full, []);
            Agrees(m, w) <==> !stays || |base.t.blocks| in killed || !Held(base, killed, k)
  {
    hide Generated, ChainFor, FullWalk, LiveIn, CacheOk, ChainsOk, RunKills, Running, Held, Base, LogOk, KilledAll;
    if stays {
      BaseAgrees(m, v, full);
      AgreesInOrder(m, v);
      OneUseLeft(m, Base(v, full, []), w, k, extent, killed);
      LogAfterOnce(m, v, w, k, extent, full, killed, log);
    } else {
      AfterRun(m, v, full, killed, log);
    }
  }

  lemma {:induction false} AfterRun(m: Mapping, v: View, full: bool, killed: seq<nat>, log: seq<Key>)
    requires Agrees(m, v) && RunKills(Base(v, full, []), killed) && |Base(v, full, []).t.blocks| !in killed
    requires LogOk(m, v.t.blocks, v.chains, log)
    ensures var w := KilledAll(Base(v, full, []), killed);
            Agrees(m, w) && LogOk(m, w.t.blocks, w.chains, if full || killed != [] then [] else log)
  {
    var base := Base(v, full, []);
    BaseAgrees(m, v, full);
    OthersOf(base, killed);
    OthersKillable(base, killed);
    KilledAllAgrees(m, base, killed);
    hide FullWalk, LiveIn, CacheOk, ChainsOk, CanKill, RunKills, StillFoundAll;
  }

  /** The view after a block for k was put in front of its chain. */
  ghost predicate FiledAs(m: Mapping, v: View, w: View, k: Key, extent: bv32) {
    var (b, h) := (Generated(m, k, extent), ChainFor(m, k));
    && |v.t.heads| == |v.chains| == |w.chains| == 0x8000 && h < 0x8000 && h == ChainOf(b) && b.key == k
    && w == Dup(v, b, h) && TablesOk(w.t, w.chains)
  }

  /** The view after a block was generated and filed. */
  ghost predicate Generates(m: Mapping, v: View, w: View, k: Key, extent: bv32, full: bool, killed: seq<nat>) {
    var base := Base(v, full, killed);
    FiledAs(m, base, w, k, extent) && base.t.blocks == if full then [] else v.t.blocks
  }

  lemma {:induction false} FiledInOrder(m: Mapping, v: View, k: Key, extent: bv32)
    requires InOrder(v) && extent < 0x400
    ensures |v.t.heads| == |v.chains| == 0x8000 && ChainFor(m, k) < 0x8000
    ensures CacheLive(Dup(v, Generated(m, k, extent), ChainFor(m, k)))
  {
    GeneratedFiled(m, k, extent);
    BucketRange(Phys(m, k.pc));
    var (b, h) := (Generated(m, k, extent), ChainFor(m, k));
    assert h == ChainOf(b);
    DupSound(v, b, h);
    hide Generated, ChainFor, ChainOf, CacheLive, ChainsOk, LiveIn;
    FrontLive(v, Dup(v, b, h));
  }

  lemma {:induction false} StoreInOrder(v: View, id: nat)
    requires InOrder(v) && LiveIn(v, id) && CacheSlot(v.t.blocks[id].key.pc) < |v.cache|
    ensures CacheLive(v.(cache := v.cache[CacheSlot(v.t.blocks[id].key.pc) := Tb(id)]))
  {
    var w := v.(cache := v.cache[CacheSlot(v.t.blocks[id].key.pc) := Tb(id)]);
    hide CacheSlot, Bucket, FiledAt, TablesOk;
    forall i | 0 <= i < |w.cache| && w.cache[i].Tb? ensures InSlot(w, i, w.cache[i].id) {
      assert v.cache[i].Tb? ==> InSlot(v, i, v.cache[i].id);
    }
  }

  lemma {:induction false} FlushedInOrder(v: View, cache: seq<Ptr>, addr: bv32)
    requires CacheLive(v) && Flushed(v.cache, cache, addr)
    ensures CacheLive(v.(cache := cache))
  {
    var w := v.(cache := cache);
    hide CacheSlot, Bucket, FiledAt, InWindow;
    forall i | 0 <= i < |w.cache| && w.cache[i].Tb? ensures InSlot(w, i, w.cache[i].id) {
      assert InSlot(v, i, v.cache[i].id);
    }
  }

  /** The block is in its cache slot. */
  ghost predicate Entered(v: View, k: Key, id: nat) {
    && LiveIn(v, id) && v.t.blocks[id].key == k && CacheSlot(k.pc) < |v.cache| && v.cache[CacheSlot(k.pc)] == Tb(id)
    && |v.chains| == 0x8000
  }

  /** Every other key that found none of the invalidated blocks finds what it found before. */
  ghost predicate FoundElsewhere(m: Mapping, v: View, w: View, k: Key, killed: seq<nat>)
    requires |v.chains| == |w.chains| == 0x8000
  {
    forall k' :: k' != k && Spared(FullWalk(m, v.t.blocks, v.chains, k'), killed) ==>
                 FullWalk(m, w.t.blocks, w.chains, k') == FullWalk(m, v.t.blocks, v.chains, k')
  }

  /** The lookup found nothing, made a block and entered it in the cache. */
  ghost predicate Translates(m: Mapping, v: View, w: View, k: Key, extent: bv32, full: bool, killed: seq<nat>,
                             id: nat) {
    var (base, slot) := (Base(v, full, killed), CacheSlot(k.pc));
    && Generates(m, v, w.(cache := base.cache), k, extent, full, killed)
    && slot < |base.cache| && w.cache == base.cache[slot := Tb(id)] && id == |w.t.blocks| - 1
    && (!full ==> |v.chains| == |w.chains| == 0x8000 && FoundElsewhere(m, v, w, k, killed))
  }

  lemma {:induction false} TranslatesIs(m: Mapping, v: View, w: View, k: Key, extent: bv32, full: bool,
                                        killed: seq<nat>, id: nat)
    requires Translates(m, v, w, k, extent, full, killed, id)
    ensures var (base, b, h) := (Base(v, full, killed), Generated(m, k, extent), ChainFor(m, k));
            && h == ChainOf(b) && h < 0x8000 == |base.t.heads| == |base.chains|
            && w.t == Dup(base, b, h).t && w.chains == Dup(base, b, h).chains && id == |w.t.blocks| - 1
            && base.t.blocks == if full then [] else v.t.blocks
  {
    hide FoundElsewhere, Generated, ChainFor, ChainOf, TablesOk, CacheSlot, Base, Dup;
  }

  /** The blocks that are filed after a block was made. */
  lemma {:induction false} TranslatesLive(m: Mapping, v: View, w: View, k: Key, extent: bv32, full: bool,
                                          killed: seq<nat>, id: nat)
    requires TablesOk(v.t, v.chains) && (!full ==> CanKill(v, killed)) &&
             Translates(m, v, w, k, extent, full, killed, id)
    ensures w.t.blocks == (if full then [] else v.t.blocks) + [Generated(m, k, extent)]
    ensures id == if full then 0 else |v.t.blocks|
    ensures forall other: nat :: LiveIn(w, other) <==> other == id || (!full && LiveIn(v, other) && other !in killed)
  {
    var (base, b, h) := (Base(v, full, killed), Generated(m, k, extent), ChainFor(m, k));
    hide Translates, Generated, ChainFor, ChainOf, TablesOk, Base, LiveIn, CanKill;
    TranslatesIs(m, v, w, k, extent, full, killed, id);
    BaseLive(v, full, killed);
    DupSound(base, b, h);
    SameLive(w, Dup(base, b, h));
    hide AddChain;
    forall other: nat ensures LiveIn(w, other) <==> other == id || (!full && LiveIn(v, other) && other !in killed) {
      LiveInRange(w, other);
      LiveInRange(base, other);
    }
  }

  lemma {:induction false} LiveInRange(v: View, id: nat)
    ensures LiveIn(v, id) ==> id < |v.t.blocks|
  {}

  lemma {:induction false} SameLive(v: View, w: View)
    requires v.t.blocks == w.t.blocks && v.chains == w.chains
    ensures forall id :: LiveIn(v, id) <==> LiveIn(w, id)
  {}

  lemma {:induction false} BaseLive(v: View, full: bool, killed: seq<nat>)
    requires TablesOk(v.t, v.chains) && (!full ==> CanKill(v, killed))
    ensures var base := Base(v, full, killed);
            && TablesOk(base.t, base.chains)
            && forall id: nat :: LiveIn(base, id) <==> !full && LiveIn(v, id) && id !in killed
  {
    hide TablesOk, LiveIn, CacheLive, KilledAll, Blank;
    if full { EmptyTables(); } else { KilledAllSound(v, killed); }
  }

  lemma {:induction false} TranslatesNow(m: Mapping, v: View, u: View, w: View, k: Key, extent: bv32, full: bool,
                                         killed: seq<nat>, id: nat)
    requires Generates(m, v, u, k, extent, full, killed) && id == |Base(v, full, killed).t.blocks|
    requires CacheSlot(k.pc) < |u.cache| && w == u.(cache := u.cache[CacheSlot(k.pc) := Tb(id)])
    requires !full ==> |v.chains| == |u.chains| == 0x8000 && FoundElsewhere(m, v, u, k, killed)
    ensures Translates(m, v, w, k, extent, full, killed, id)
  {
    hide Generated, ChainFor, TablesOk, CacheSlot, FoundElsewhere, Base;
    assert w.(cache := Base(v, full, killed).cache) == u;
    if !full { FoundIgnoresCache(m, v, u, w, k, killed); }
  }

  lemma {:induction false} StillNull(m: Mapping, v: View, u: View, k: Key, killed: seq<nat>)
    requires |v.chains| == |u.chains| == 0x8000 && StillFoundAll(m, v, u, killed) &&
             FullWalk(m, v.t.blocks, v.chains, k) == Null
    ensures FullWalk(m, u.t.blocks, u.chains, k) == Null
  {
    hide FullWalk;
  }

  lemma {:induction false} FoundThrough(m: Mapping, v: View, u: View, w: View, k: Key, killed: seq<nat>)
    requires |v.chains| == |u.chains| == |w.chains| == 0x8000
    requires StillFoundAll(m, v, u, killed) && SameElsewhere(m, u.t.blocks, u.chains, w.t.blocks, w.chains, k)
    ensures FoundElsewhere(m, v, w, k, killed)
  {
    hide FullWalk;
  }

  lemma {:induction false} FoundIgnoresCache(m: Mapping, v: View, u: View, w: View, k: Key, killed: seq<nat>)
    requires |v.chains| == |u.chains| == 0x8000 && w == u.(cache := w.cache) && FoundElsewhere(m, v, u, k, killed)
    ensures FoundElsewhere(m, v, w, k, killed)
  {
    hide FullWalk;
  }

  lemma {:induction false} LinkedAs(m: Mapping, v: View, log: seq<Key>, k: Key, extent: bv32)
    requires TablesOk(v.t, v.chains) && extent < 0x400
    ensures ChainFor(m, k) < 0x8000 && |v.t.heads| == |v.chains| == 0x8000
    ensures var w := Dup(v, Generated(m, k, extent), ChainFor(m, k));
            FiledAs(m, v, w, k, extent) && |w.chains| == 0x8000 &&
              FullWalk(m, w.t.blocks, w.chains, k) == Tb(|v.t.blocks|) &&
            SameElsewhere(m, v.t.blocks, v.chains, w.t.blocks, w.chains, k)
    ensures var w := Dup(v, Generated(m, k, extent), ChainFor(m, k));
            Agrees(m, v) && LogOk(m, v.t.blocks, v.chains, log) && FullWalk(m, v.t.blocks, v.chains, k) == Null ==>
              Agrees(m, w) && LogOk(m, w.t.blocks, w.chains, log + [k])
  {
    var (b, h) := (Generated(m, k, extent), ChainFor(m, k));
    GeneratedMatches(m, k, extent);
    GeneratedFiled(m, k, extent);
    BucketRange(Phys(m, k.pc));
    assert b.key == k;
    hide FullWalk, Match, ChainFor, Generated, Bucket, FiledAt, ChainsOk, CacheOk, LogOk, SameElsewhere, Phys;
    LinkedAll(m, v, log, b, h);
    hide Add, AddChain;
  }

  lemma {:induction false} LinkedAll(m: Mapping, v: View, log: seq<Key>, b: Block, h: nat)
    requires TablesOk(v.t, v.chains) && h == ChainFor(m, b.key) == ChainOf(b) && h < 0x8000 && Match(m, b, b.key)
    ensures |v.t.heads| == |v.chains| == 0x8000
    ensures var w := Dup(v, b, h);
            TablesOk(w.t, w.chains) && w.t.blocks == v.t.blocks + [b] && |w.chains| == 0x8000 &&
            FullWalk(m, w.t.blocks, w.chains, b.key) == Tb(|v.t.blocks|) &&
            SameElsewhere(m, v.t.blocks, v.chains, w.t.blocks, w.chains, b.key)
    ensures var w := Dup(v, b, h);
            Agrees(m, v) && LogOk(m, v.t.blocks, v.chains, log) && FullWalk(m, v.t.blocks, v.chains, b.key) == Null ==>
              Agrees(m, w) && LogOk(m, w.t.blocks, w.chains, log + [b.key])
  {
    hide FullWalk, Match, ChainFor, Bucket, FiledAt, ChainsOk, CacheOk, LogOk, SameElsewhere;
    AddOk(v.t, v.chains, b, h);
    AddFinds(m, v.t, v.chains, b, h, b.key);
    AddedElsewhere(m, v.t, v.chains, b, h);
    if Agrees(m, v) && LogOk(m, v.t.blocks, v.chains, log) && FullWalk(m, v.t.blocks, v.chains, b.key) == Null {
      AddedAll(m, v.t, v.chains, v.cache, log, b, h);
    }
  }

  /** A block filed for a key that already has one leaves the cache in agreement exactly when the cache does not hold
      the key: a cached block of that key is no longer what a walk finds. */
  lemma {:induction false} ShadowedExactly(m: Mapping, v: View, b: Block, h: nat)
    requires Agrees(m, v) && h == ChainFor(m, b.key) == ChainOf(b) && h < 0x8000 && Match(m, b, b.key)
    requires CacheSlot(b.key.pc) < |v.cache|
    ensures |v.t.heads| == |v.chains| == 0x8000
    ensures var p := v.cache[CacheSlot(b.key.pc)];
            Agrees(m, Dup(v, b, h)) <==> (p.Tb? ==> p.id < |v.t.blocks| && v.t.blocks[p.id].key != b.key)
  {
    DupSound(v, b, h);
    var (w, slot) := (Dup(v, b, h), CacheSlot(b.key.pc));
    assert Cached(m, v.t.blocks, v.chains, slot, v.cache[slot]);
    hide FullWalk, Match, ChainFor, ChainOf, ChainsOk, CacheSlot, LiveIn;
    AddFinds(m, v.t, v.chains, b, h, b.key);
    if Agrees(m, w) { assert Cached(m, w.t.blocks, w.chains, slot, w.cache[slot]); }
    if v.cache[slot].Tb? ==> v.t.blocks[v.cache[slot].id].key != b.key {
      forall i | 0 <= i < |w.cache| ensures Cached(m, w.t.blocks, w.chains, i, w.cache[i]) {
        assert Cached(m, v.t.blocks, v.chains, i, v.cache[i]);
        if w.cache[i].Tb? { AddFinds(m, v.t, v.chains, b, h, v.t.blocks[v.cache[i].id].key); }
      }
    }
  }

  /** The blocks that are filed while the one-use block has not been removed. */
  lemma {:induction false} LeftLive(m: Mapping, base: View, w: View, k: Key, extent: bv32, killed: seq<nat>)
    requires InOrder(base) && extent < 0x400 && RunKills(base, killed)
    requires Running(w, base, Generated(m, k, extent), ChainFor(m, k), killed)
    ensures |w.t.blocks| == |base.t.blocks| + 1
    ensures forall id: nat :: LiveIn(w, id) <==> (id == |base.t.blocks| || LiveIn(base, id)) && id !in killed
  {
    GeneratedFiled(m, k, extent);
    BucketRange(Phys(m, k.pc));
    var (b, h, n) := (Generated(m, k, extent), ChainFor(m, k), |base.t.blocks|);
    assert h == ChainOf(b);
    hide Generated, ChainFor, ChainOf, InOrder, LiveIn, Running;
    RunningSound(w, base, b, h, killed);
    OthersOfRun(base, killed);
    hide Others, KilledAll, RunKills;
    forall id: nat ensures LiveIn(w, id) <==> (id == n || LiveIn(base, id)) && id !in killed {
      LiveInRange(w, id);
      LiveInRange(base, id);
    }
  }

  lemma {:induction false} OthersOfRun(base: View, ids: seq<nat>)
    requires RunKills(base, ids)
    ensures forall x :: x in Others(ids, |base.t.blocks|) <==> x in ids && x != |base.t.blocks|
  {
    hide LiveIn;
    OthersAre(ids, |base.t.blocks|);
  }

  /** The blocks that are filed once it has. */
  lemma {:induction false} RemovedLive(base: View, killed: seq<nat>)
    requires InOrder(base) && RunKills(base, killed) && |base.t.blocks| !in killed
    ensures |KilledAll(base, killed).t.blocks| == |base.t.blocks|
    ensures forall id: nat :: LiveIn(KilledAll(base, killed), id) <==> LiveIn(base, id) && id !in killed
  {
    hide LiveIn, TablesOk, CacheLive;
    OthersOf(base, killed);
    OthersKillable(base, killed);
    KilledAllSound(base, killed);
  }

  /** The cache slot of the key holds a block of that key, and the run does not invalidate it. */
  ghost predicate Held(base: View, killed: seq<nat>, k: Key) {
    && CacheSlot(k.pc) < |base.cache| && base.cache[CacheSlot(k.pc)].Tb?
    && var id := base.cache[CacheSlot(k.pc)].id;
       id < |base.t.blocks| && base.t.blocks[id].key == k && id !in killed
  }

  /** The test of tb_find_fast. */
  lemma {:induction false} CacheTest(m: Mapping, v: View, k: Key)
    requires InOrder(v)
    ensures CacheSlot(k.pc) < |v.cache|
    ensures var p := v.cache[CacheSlot(k.pc)];
            && (p.Tb? ==> p.id < |v.t.blocks|)
            && (Held(v, [], k) <==> p.Tb? && v.t.blocks[p.id].key == k)
            && (Held(v, [], k) ==> Entered(v, k, p.id))
            && (Held(v, [], k) && Agrees(m, v) ==> FullWalk(m, v.t.blocks, v.chains, k) == p)
  {
    HashWindow(k.pc, k.pc);
    hide CacheSlot, WindowStart, ChainsOk, Bucket, FiledAt, FullWalk, PageOf;
    var p := v.cache[CacheSlot(k.pc)];
    assert p.Tb? ==> InSlot(v, CacheSlot(k.pc), p.id);
    assert Agrees(m, v) ==> Cached(m, v.t.blocks, v.chains, CacheSlot(k.pc), p);
  }

  /** A one-use block that was never removed is what its key finds from then on, unless it invalidated itself. So the
      cache agrees with full walks exactly when the block invalidated itself or the cache does not hold the key. */
  lemma {:induction false} OneUseLeft(m: Mapping, base: View, w: View, k: Key, extent: bv32, killed: seq<nat>)
    requires Agrees(m, base) && extent < 0x400 && RunKills(base, killed)
    requires Running(w, base, Generated(m, k, extent), ChainFor(m, k), killed)
    ensures |w.chains| == 0x8000
    ensures |base.t.blocks| !in killed ==> FullWalk(m, w.t.blocks, w.chains, k) == Tb(|base.t.blocks|)
    ensures Agrees(m, w) <==> |base.t.blocks| in killed || !Held(base, killed, k)
  {
    var (n, o) := (|base.t.blocks|, Others(killed, |base.t.blocks|));
    hide Generated, ChainFor, FullWalk, ChainsOk, CacheOk, LiveIn, RunKills, CanKill, Held;
    OthersKillable(base, killed);
    KilledAllAgrees(m, base, o);
    KilledAllSound(base, o);
    hide KilledAll, AllGone, Others;
    if n in killed {
      SpareAgrees(m, KilledAll(base, o), Generated(m, k, extent), w.t.next[n]);
    } else {
      OthersOf(base, killed);
      ShadowsCached(m, base, k, extent, killed);
    }
  }

  lemma {:induction false} ShadowsCached(m: Mapping, base: View, k: Key, extent: bv32, killed: seq<nat>)
    requires Agrees(m, base) && extent < 0x400 && CanKill(base, killed)
    ensures var v := KilledAll(base, killed);
            var (b, h) := (Generated(m, k, extent), ChainFor(m, k));
            && h < |v.t.heads| == |v.chains| == 0x8000 && |Dup(v, b, h).chains| == 0x8000
            && FullWalk(m, Dup(v, b, h).t.blocks, Dup(v, b, h).chains, k) == Tb(|base.t.blocks|)
            && (Agrees(m, Dup(v, b, h)) <==> !Held(base, killed, k))
  {
    hide Generated, ChainFor, FullWalk, ChainsOk, CacheOk, LiveIn, CanKill, KilledAll, AllGone, Held, CacheLive, Dup;
    var v := KilledAll(base, killed);
    KilledAllAgrees(m, base, killed);
    KilledAllSound(base, killed);
    AgreesInOrder(m, base);
    AgreesInOrder(m, v);
    GeneratedShadows(m, v, k, extent);
    HeldAfter(base, killed, k);
    hide CacheSlot;
  }

  lemma {:induction false} GeneratedShadows(m: Mapping, v: View, k: Key, extent: bv32)
    requires Agrees(m, v) && extent < 0x400
    ensures var (b, h) := (Generated(m, k, extent), ChainFor(m, k));
            && h < |v.t.heads| == |v.chains| == 0x8000 && |Dup(v, b, h).chains| == 0x8000
            && FullWalk(m, Dup(v, b, h).t.blocks, Dup(v, b, h).chains, k) == Tb(|v.t.blocks|)
            && CacheSlot(k.pc) < 4096 == |v.cache|
            && var p := v.cache[CacheSlot(k.pc)];
               Agrees(m, Dup(v, b, h)) <==> (p.Tb? ==> p.id < |v.t.blocks| && v.t.blocks[p.id].key != k)
  {
    hide Generated, ChainFor, ChainOf, Match, FullWalk, ChainsOk, CacheOk, CacheSlot;
    var (b, h) := (Generated(m, k, extent), ChainFor(m, k));
    GeneratedFacts(m, k, extent);
    CacheSize(m, v.t.blocks, v.chains, v.cache);
    AddFinds(m, v.t, v.chains, b, h, k);
    ShadowedExactly(m, v, b, h);
  }

  lemma {:induction false} GeneratedFacts(m: Mapping, k: Key, extent: bv32)
    requires extent < 0x400
    ensures var b := Generated(m, k, extent);
            Match(m, b, k) && b.key == k && ChainFor(m, k) == ChainOf(b) && ChainFor(m, k) < 0x8000 &&
              CacheSlot(k.pc) < 4096
  {
    GeneratedMatches(m, k, extent);
    GeneratedFiled(m, k, extent);
    BucketRange(Phys(m, k.pc));
    HashWindow(k.pc, k.pc);
    hide CacheSlot, WindowStart, PageOf, Match, Bucket, FiledAt, Phys, LastOf;
  }

  lemma {:induction false} HeldAfter(base: View, killed: seq<nat>, k: Key)
    requires InOrder(base) && CanKill(base, killed) && InOrder(KilledAll(base, killed)) && CacheSlot(k.pc) < 4096
    ensures var v := KilledAll(base, killed);
            && |v.cache| == 4096
            && var p := v.cache[CacheSlot(k.pc)];
               (p.Tb? ==> p.id < |v.t.blocks| && v.t.blocks[p.id].key != k) <==> !Held(base, killed, k)
  {
    hide CacheSlot, LiveIn, CanKill, ChainsOk;
    KilledAllCache(base, killed);
    KilledAllSound(base, killed);
    CachedInRange(KilledAll(base, killed), CacheSlot(k.pc));
    hide KilledAll, AllGone;
  }

  lemma {:induction false} CachedInRange(v: View, i: nat)
    requires CacheLive(v) && i < |v.cache|
    ensures v.cache[i].Tb? ==> v.cache[i].id < |v.t.blocks|
  {
    hide CacheSlot, Bucket, FiledAt;
    assert v.cache[i].Tb? ==> InSlot(v, i, v.cache[i].id);
  }

  /** Exactly the invalidated blocks leave the cache. */
  lemma {:induction false} KilledAllCache(v: View, ids: seq<nat>)
    requires InOrder(v) && CanKill(v, ids)
    ensures |KilledAll(v, ids).cache| == |v.cache|
    ensures forall i :: 0 <= i < |v.cache| ==>
              KilledAll(v, ids).cache[i] == if v.cache[i].Tb? && v.cache[i].id in ids then Null else v.cache[i]
  {
    hide TablesOk, Killed, LiveIn, CacheLive, AllGone;
    if ids != [] {
      var (init, id) := (ids[..|ids| - 1], ids[|ids| - 1]);
      KilledNext(v, ids, |ids| - 1);
      KilledAllSound(v, init);
      KilledAllCache(v, init);
      assert ids == init + [id] && ids[..|ids|] == ids;
      hide KilledAll, CanKill;
      KilledOneCache(KilledAll(v, init), id);
    }
  }

  lemma {:induction false} KilledOneCache(v: View, id: nat)
    requires InOrder(v) && LiveIn(v, id)
    ensures |Killed(v, id).cache| == |v.cache|
    ensures forall i :: 0 <= i < |v.cache| ==>
              Killed(v, id).cache[i] == if v.cache[i] == Tb(id) then Null else v.cache[i]
  {
    KilledIs(v, id);
    hide TablesOk, Killed, LiveIn, CacheSlot, ChainOf, Write, Without, PlaceAt, IndexIn;
    forall i | 0 <= i < |v.cache| && v.cache[i] == Tb(id) ensures i == CacheSlot(v.t.blocks[id].key.pc) {
      assert InSlot(v, i, v.cache[i].id);
    }
  }

  /** A block that is in no chain changes nothing. */
  lemma {:induction false} SpareAgrees(m: Mapping, v: View, b: Block, x: Ptr)
    requires Agrees(m, v)
    ensures Agrees(m, Spare(v, b, x))
  {
    SpareSound(v, b, x);
    var w := Spare(v, b, x);
    hide FullWalk, LiveIn, ChainsOk, CacheSlot;
    forall i | 0 <= i < |w.cache| ensures Cached(m, w.t.blocks, w.chains, i, w.cache[i]) {
      assert Cached(m, v.t.blocks, v.chains, i, v.cache[i]);
      if w.cache[i].Tb? { SpareFinds(m, v, b, v.t.blocks[v.cache[i].id].key); }
    }
  }

  lemma {:induction false} SpareFinds(m: Mapping, v: View, b: Block, k: Key)
    requires TablesOk(v.t, v.chains)
    ensures FullWalk(m, v.t.blocks + [b], v.chains, k) == FullWalk(m, v.t.blocks, v.chains, k)
  {
    BucketRange(Phys(m, k.pc));
    var c := ChainFor(m, k);
    assert Filed(v.t.blocks, v.chains[c], c);
    WalkFrame(m, m, v.t.blocks, v.t.blocks + [b], v.chains[c], k);
    hide Walk, Phys, Bucket;
  }

  /** The lookups' own record survives a one-use block, whatever becomes of it. */
  lemma {:induction false} LogAfterOnce(m: Mapping, v: View, w: View, k: Key, extent: bv32, full: bool,
                                        killed: seq<nat>,
                                        log: seq<Key>)
    requires InOrder(v) && extent < 0x400 && LogOk(m, v.t.blocks, v.chains, log)
    requires Running(w, Base(v, full, []), Generated(m, k, extent), ChainFor(m, k), killed) && |w.chains| == 0x8000
    ensures LogOk(m, w.t.blocks, w.chains, if full || killed != [] then [] else log)
  {
    if !full && killed == [] {
      KilledNone(v);
      var (b, h) := (Generated(m, k, extent), ChainFor(m, k));
      GeneratedMatches(m, k, extent);
      assert b.key == k;
      hide Generated, ChainFor, Match, FullWalk, ChainsOk, CacheLive, KilledAll;
      forall i | 0 <= i < |log| ensures FullWalk(m, w.t.blocks, w.chains, log[i]) != Null {
        AddFinds(m, v.t, v.chains, b, h, log[i]);
      }
    }
  }

  lemma {:induction false} StillEntered(m: Mapping, v: View, w: View, k: Key, extent: bv32, id: nat)
    requires InOrder(v) && extent < 0x400 && Entered(v, k, id)
    requires Running(w, v, Generated(m, k, extent), ChainFor(m, k), [])
    ensures Entered(w, k, id)
  {
    GeneratedFiled(m, k, extent);
    BucketRange(Phys(m, k.pc));
    assert ChainFor(m, k) == ChainOf(Generated(m, k, extent));
    DupSound(v, Generated(m, k, extent), ChainFor(m, k));
    KilledNone(v);
    hide Generated, ChainFor, ChainOf, ChainsOk, CacheLive, CacheSlot, KilledAll, Killed;
  }

  lemma {:induction false} KilledNone(v: View)
    ensures KilledAll(v, []) == v
  {}

  /** The next block of a list is still filed. */
  lemma {:induction false} KilledNext(v: View, ids: seq<nat>, i: nat)
    requires TablesOk(v.t, v.chains) && CanKill(v, ids) && i < |ids|
    ensures LiveIn(KilledAll(v, ids[..i]), ids[i])
    ensures KilledAll(v, ids[..i + 1]) == Killed(KilledAll(v, ids[..i]), ids[i])
  {
    KilledAllSound(v, ids[..i]);
    assert ids[i] !in ids[..i];
    assert ids[..i + 1][..i] == ids[..i] && ids[..i + 1][i] == ids[i];
    hide TablesOk, Killed, LiveIn;
  }

  /** The keys that did not find the block find what they found before. */
  ghost predicate StillFound(m: Mapping, blocks: seq<Block>, chains: seq<seq<nat>>, chains': seq<seq<nat>>, id: nat)
    requires |chains| == |chains'| == 0x8000
  {
    forall k :: FullWalk(m, blocks, chains, k) != Tb(id) ==>
                FullWalk(m, blocks, chains', k) == FullWalk(m, blocks, chains, k)
  }

  lemma {:induction false} CutStillFound(m: Mapping, t: Tables, chains: seq<seq<nat>>, h: nat, i: nat)
    requires TablesOk(t, chains) && h < |chains| && i < |chains[h]|
    ensures StillFound(m, t.blocks, chains, chains[h := Without(chains[h], i)], chains[h][i])
  {
    var (chains', id) := (chains[h := Without(chains[h], i)], chains[h][i]);
    hide FullWalk, ChainsOk;
    forall k | FullWalk(m, t.blocks, chains, k) != Tb(id)
      ensures FullWalk(m, t.blocks, chains', k) == FullWalk(m, t.blocks, chains, k)
    {
      CutFinds(m, t, chains, h, i, k);
    }
  }

  lemma {:induction false} CutLive(t: Tables, chains: seq<seq<nat>>, h: nat, i: nat)
    requires TablesOk(t, chains) && h < |chains| && i < |chains[h]|
    ensures OnlyGone(t.blocks, chains, chains[h := Without(chains[h], i)], chains[h][i])
  {
    assert Filed(t.blocks, chains[h], h);
    assert Bucket(FiledAt(t.blocks[chains[h][i]])) == h;
    CutMembers(chains[h], i);
    var (cut, id) := (Without(chains[h], i), chains[h][i]);
    hide Bucket, FiledAt, Without, TablesOk, Filed, Live;
    forall other: nat
      ensures Live(t.blocks, chains[h := cut], other) <==> Live(t.blocks, chains, other) && other != id
    {
      LiveAfterCut(t.blocks, chains, h, cut, id, other);
    }
  }

  lemma {:induction false} LiveAfterCut(blocks: seq<Block>, chains: seq<seq<nat>>, h: nat, cut: seq<nat>, id: nat,
                                        other: nat)
    requires h < |chains| && (other in cut <==> other in chains[h] && other != id)
    requires id < |blocks| && Bucket(FiledAt(blocks[id])) == h
    ensures Live(blocks, chains[h := cut], other) <==> Live(blocks, chains, other) && other != id
  {
    hide Bucket, FiledAt;
  }

  /** Exactly one block is no longer filed. */
  ghost predicate OnlyGone(blocks: seq<Block>, chains: seq<seq<nat>>, chains': seq<seq<nat>>, id: nat) {
    forall other :: Live(blocks, chains', other) <==> Live(blocks, chains, other) && other != id
  }

  lemma {:induction false} CutAll(m: Mapping, t: Tables, chains: seq<seq<nat>>, cache: seq<Ptr>, h: nat, i: nat)
    requires TablesOk(t, chains) && CacheOk(m, t.blocks, chains, cache) && h < |chains| && i < |chains[h]|
    requires chains[h][i] < |t.blocks|
    ensures var (id, chains') := (chains[h][i], chains[h := Without(chains[h], i)]);
            InPlace(t, PlaceAt(chains[h], i, h)) &&
            TablesOk(Write(t, PlaceAt(chains[h], i, h), t.next[id]), chains') &&
            CacheOk(m, t.blocks, chains', Dropped(cache, CacheSlot(t.blocks[id].key.pc), id)) &&
            OnlyGone(t.blocks, chains, chains', id) && StillFound(m, t.blocks, chains, chains', id)
  {
    hide ChainsOk, CacheOk, FullWalk, OnlyGone, StillFound, CacheSlot;
    CutOk(t, chains, h, i);
    CacheAfterCut(m, t, chains, cache, h, i);
    CutLive(t, chains, h, i);
    CutStillFound(m, t, chains, h, i);
  }

  /** The tables after a new block is filed for a key that finds nothing. */
  lemma {:induction false} AddedAll(m: Mapping, t: Tables, chains: seq<seq<nat>>, cache: seq<Ptr>, log: seq<Key>,
                                    b: Block, h: nat)
    requires TablesOk(t, chains) && CacheOk(m, t.blocks, chains, cache) && LogOk(m, t.blocks, chains, log)
    requires h == ChainFor(m, b.key) == Bucket(FiledAt(b)) && h < 0x8000 && Match(m, b, b.key)
    requires FullWalk(m, t.blocks, chains, b.key) == Null
    ensures TablesOk(Add(t, b, h), AddChain(t, chains, h))
    ensures CacheOk(m, t.blocks + [b], AddChain(t, chains, h), cache)
    ensures LogOk(m, t.blocks + [b], AddChain(t, chains, h), log + [b.key])
  {
    hide FullWalk, Match, ChainFor, Bucket, FiledAt, ChainsOk, CacheOk, LogOk;
    AddOk(t, chains, b, h);
    CacheAfterAdd(m, t, chains, cache, b, h);
    LogAfterAdd(m, t, chains, log, b, h);
  }

  lemma {:induction false} AddedElsewhere(m: Mapping, t: Tables, chains: seq<seq<nat>>, b: Block, h: nat)
    requires TablesOk(t, chains) && h == ChainFor(m, b.key) && h < 0x8000 && Match(m, b, b.key)
    ensures SameElsewhere(m, t.blocks, chains, t.blocks + [b], AddChain(t, chains, h), b.key)
  {
    hide FullWalk, Match, ChainFor, ChainsOk;
    forall k | k != b.key
      ensures FullWalk(m, t.blocks + [b], AddChain(t, chains, h), k) == FullWalk(m, t.blocks, chains, k)
    {
      AddFinds(m, t, chains, b, h, k);
    }
  }

  lemma {:induction false} CacheSize(m: Mapping, blocks: seq<Block>, chains: seq<seq<nat>>, cache: seq<Ptr>)
    requires |chains| == 0x8000 && CacheOk(m, blocks, chains, cache)
    ensures |cache| == 4096
  {}

  lemma {:induction false} CutMembers(chain: seq<nat>, i: nat)
    requires i < |chain| && forall a, b :: 0 <= a < b < |chain| ==> chain[a] != chain[b]
    ensures forall id :: id in Without(chain, i) <==> id in chain && id != chain[i]
  {
    forall id ensures id in Without(chain, i) <==> id in chain && id != chain[i] {
      if id in chain && id != chain[i] {
        var k :| 0 <= k < |chain| && chain[k] == id;
        assert Without(chain, i)[if k < i then k else k - 1] == id;
      }
    }
  }
}
