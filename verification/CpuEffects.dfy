/**
 What generated code does while it runs, as seen by the loop of cpu_exec: its stores invalidate blocks
 (exec.c:782-834), the guest changes its page tables (exec.c:1763-1808), devices raise interrupts and
 signals arrive (exec.c:1580-1621).
 */
module CpuEffects {
  import opened Common
  import opened CpuLog
  import C = TbChain
  import H = TbHash
  import L = TbLookup
  import V = TbViews

  datatype Effect =
    | Invalidates(id: nat)
    | RemapsAll(m: L.Mapping)
    | RemapsPage(addr: bv32, page: bv32)
    | Raises(raised: Requests)
    | Exits

  /** A block that runs, and what happens meanwhile. */
  datatype Stop = Stop(tb: nat, effects: seq<Effect>)

  /** What effects act on. */
  datatype State = State(view: V.View, m: L.Mapping, flag: bool, live: set<nat>, requests: Requests, exit: bool)

  function Remapped(m: L.Mapping, addr: bv32, page: bv32): L.Mapping {
    (a: bv32) => if a == H.PageOf(addr) then page else m(a)
  }

  lemma {:induction false} RemappedOnly(m: L.Mapping, addr: bv32, page: bv32)
    ensures L.RemapsOnly(m, Remapped(m, addr, page), addr)
  {
    hide H.PageOf;
  }

  /** The cache without the two windows of a page. */
  ghost function Cleared(cache: seq<L.Ptr>, addr: bv32): seq<L.Ptr> {
    seq(|cache|, i requires 0 <= i < |cache| =>
      if L.InWindow(addr - 0x400, i) || L.InWindow(addr, i) then L.Null else cache[i])
  }

  lemma {:induction false} ClearedIs(cache: seq<L.Ptr>, cache': seq<L.Ptr>, addr: bv32)
    requires L.Flushed(cache, cache', addr)
    ensures cache' == Cleared(cache, addr)
  {
    hide L.InWindow;
  }

  ghost function After(s: State, e: Effect): State {
    match e
    case Invalidates(id) => s.(view := V.Killed(s.view, id), flag := true, live := s.live - {id})
    case RemapsAll(m) => s.(view := s.view.(cache := L.Empty(4096)), m := m)
    case RemapsPage(addr, page) =>
      s.(view := s.view.(cache := Cleared(s.view.cache, addr)), m := Remapped(s.m, addr, page))
    case Raises(raised) => s.(requests := Union(s.requests, raised))
    case Exits => s.(exit := true)
  }

  ghost function AfterAll(s: State, es: seq<Effect>): State {
    if es == [] then s else After(AfterAll(s, es[..|es| - 1]), es[|es| - 1])
  }

  function Kills(es: seq<Effect>): seq<nat> {
    if es == [] then []
    else Kills(es[..|es| - 1]) + if es[|es| - 1].Invalidates? then [es[|es| - 1].id] else []
  }

  function EffectsOf(stops: seq<Stop>): seq<Effect> {
    if stops == [] then [] else EffectsOf(stops[..|stops| - 1]) + stops[|stops| - 1].effects
  }

  function Blocks(stops: seq<Stop>): seq<nat> { seq(|stops|, i requires 0 <= i < |stops| => stops[i].tb) }

  /** Only valid blocks are invalidated, each once. */
  ghost predicate CanDo(live: set<nat>, es: seq<Effect>) {
    (forall i :: 0 <= i < |Kills(es)| ==> Kills(es)[i] in live) && NoDup(Kills(es))
  }

  lemma {:induction false} AfterMore(s: State, es: seq<Effect>, e: Effect)
    ensures AfterAll(s, es + [e]) == After(AfterAll(s, es), e)
    ensures Kills(es + [e]) == Kills(es) + if e.Invalidates? then [e.id] else []
  {
    assert (es + [e])[..|es|] == es;
    hide After;
  }

  lemma {:induction false} KillsJoin(a: seq<Effect>, b: seq<Effect>)
    ensures Kills(a + b) == Kills(a) + Kills(b)
  {
    if b == [] {
      assert a + b == a;
    } else {
      var init := b[..|b| - 1];
      assert b == init + [b[|b| - 1]] && a + b == (a + init) + [b[|b| - 1]];
      KillsJoin(a, init);
      assert (a + b)[..|a + b| - 1] == a + init;
    }
  }

  lemma {:induction false} LiveAfter(s: State, es: seq<Effect>)
    ensures AfterAll(s, es).live == s.live - C.Gone(Kills(es)) && AfterAll(s, es).flag == (s.flag || Kills(es) != [])
  {
    if es != [] { LiveAfter(s, es[..|es| - 1]); }
  }

  /** The next effect of a list can happen after those before it. */
  lemma {:induction false} NextEffect(s: State, es: seq<Effect>, e: Effect, rest: seq<Effect>)
    requires CanDo(s.live, es + [e] + rest) && e.Invalidates?
    ensures e.id in AfterAll(s, es).live
  {
    LiveAfter(s, es);
    hide AfterAll;
    AfterMore(s, es, e);
    KillsJoin(es + [e], rest);
    var all := Kills(es + [e] + rest);
    assert all[|Kills(es)|] == e.id;
    forall i | 0 <= i < |Kills(es)| ensures Kills(es)[i] != e.id { assert all[i] == Kills(es)[i]; }
  }

  lemma {:induction false} EffectsNext(stops: seq<Stop>, i: nat)
    requires i < |stops|
    ensures EffectsOf(stops[..i + 1]) == EffectsOf(stops[..i]) + stops[i].effects
  {
    assert stops[..i + 1][..i] == stops[..i] && stops[..i + 1][i] == stops[i];
  }

  /** The effects of a front of the stops are a front of the effects. */
  lemma {:induction false} EffectsFront(stops: seq<Stop>, i: nat) returns (rest: seq<Effect>)
    requires i <= |stops|
    ensures EffectsOf(stops) == EffectsOf(stops[..i]) + rest
    decreases |stops| - i
  {
    if i == |stops| {
      assert stops[..i] == stops;
      rest := [];
    } else {
      EffectsNext(stops, i);
      var more := EffectsFront(stops, i + 1);
      rest := stops[i].effects + more;
    }
  }
}
