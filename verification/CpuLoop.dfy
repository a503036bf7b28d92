/**
 The inner loop of cpu_exec for the ARM target (cpu-exec.c:331-657): interrupts, the lookup,
 the patching of the block that ran last, execution, and what happens when the instruction
 budget is spent. A block is an entry of the lookup tables, an entry of the jump tables and a
 length under one number.

 What the loop cannot decide is an input of each step: pending requests, the interrupt masks,
 what do_interrupt sets, the key to look up, what the translator makes of it, and what the
 generated code does. A ghost log records what happened.
 */
module CpuLoop {
  import opened Common
  import opened CpuLog
  import opened CpuEffects
  import opened TbChain
  import opened TbIcount
  import H = TbHash
  import L = TbLookup
  import V = TbViews
  import T = TbTables

  /** A tagged block pointer, or zero. */
  datatype NextTb = Zero | From(tb: nat, tag: nat)

  /** The key to look up, and what the translator does if it is called: the block it makes, whether the block array
      was full, and the blocks that memory faults of the translator invalidate. */
  datatype Lookup = Lookup(key: L.Key, extent: bv32, length: nat, ptr: int, exit0: int, exit1: int, full: bool,
                           killed: seq<nat>)

  /** How generated code leaves: naming one of its block's slots, or no slot. */
  datatype Way = Jump(n: nat) | Plain

  /** A run of generated code, should the budget last: the blocks entered through direct jumps and what happens in
      each; the last one may fault after some instructions and leave by a long jump. */
  datatype Execution = Execution(stops: seq<Stop>, way: Way, faulted: bool, fault: nat)

  /** The block cpu_exec_nocache makes for what is left of the budget, and what its run does: requests may arrive
      before it starts or while it runs, and it may fault after some instructions. */
  datatype Once = Once(extent: bv32, ptr: int, exit0: int, exit1: int, full: bool, early: bool, raised: Requests,
                       killed: seq<nat>, fault: nat)

  /** The two tables hold the same blocks. */
  ghost predicate SameBlocks(count: nat, live: set<nat>, v: V.View) {
    |v.t.blocks| == count && forall id: nat :: id in live <==> V.LiveIn(v, id)
  }

  predicate OnOnePage(b: L.Block) { b.page1 == H.NoPage }

  predicate LengthsOk(lengths: seq<nat>, count: nat) {
    |lengths| == count && forall i :: 0 <= i < |lengths| ==> 1 <= lengths[i] <= CountMask
  }

  class Loop {
    const useIcount: bool
    const tables: JumpTables
    const blocks: T.BlockTables
    const counter: Counter
    var lengths: seq<nat>        // instructions of each block
    var requests: Requests       // interrupt_request
    var exitRequest: bool
    var nextTb: NextTb
    var currentTb: NextTb        // current_tb: the block about to run, with tag 0
    var spentTb: NextTb          // the block that did not fit the budget, when a one-use block is to stand in for it
    ghost var log: seq<Event>

    ghost predicate Synced()
      reads tables, blocks
    {
      tables.Valid() && blocks.Sound() && SameBlocks(|tables.j.tcPtr|, tables.g.live, blocks.Now())
    }

    ghost predicate Valid()
      reads this, tables, blocks, counter
    {
      && Synced() && counter.Valid() && LengthsOk(lengths, |tables.j.tcPtr|) && LogOk(log)
      && if currentTb.From? then currentTb.tb in tables.g.live && !exitRequest && spentTb == Zero
         else if spentTb.From? then SpentOk() else NextOk()
    }

    /** Unless the loop is about to leave: the block that ran last is still allocated, and if it was
        invalidated the flag says so; and after a run there is a block to patch. */
    ghost predicate NextOk()
      reads this, tables, blocks
    {
      !exitRequest ==>
        if nextTb.From? then
          && nextTb.tb < |tables.j.tcPtr| && nextTb.tag <= 2
          && (nextTb.tb in tables.g.live || blocks.invalidated)
          && |log| > 0 && log[|log| - 1] == Ran(nextTb.tb, nextTb.tag, nextTb.tb in tables.g.live)
        else
          |log| > 0 ==> !log[|log| - 1].Ran?
    }

    /** Something is left of the budget, less than the block needs. */
    ghost predicate SpentOk()
      reads this, tables, counter
    {
      && useIcount && spentTb.From? && spentTb.tb < |tables.j.tcPtr| && spentTb.tb < |lengths|
      && counter.high == 0 && counter.extra == 0 && 0 < counter.low < lengths[spentTb.tb]
    }

    /** What effects act on. */
    ghost function Snap(): State
      reads this, tables, blocks
    {
      State(blocks.Now(), blocks.m, blocks.invalidated, tables.g.live, requests, exitRequest)
    }

    constructor (m: L.Mapping, useIcount: bool)
      ensures Valid() && blocks.Valid() && fresh(tables) && fresh(blocks) && fresh(counter)
      ensures this.useIcount == useIcount && counter.Left() == 0 && counter.executed == 0 && counter.high == 0
      ensures blocks.m == m && blocks.Now() == V.Blank() && !blocks.invalidated && tables.j.tcPtr == [] &&
              tables.g.live == {}
      ensures log == [] && nextTb == currentTb == spentTb == Zero && !exitRequest && requests == NoRequests
      ensures forall k :: blocks.Find(k) == L.Null
    {
      this.useIcount := useIcount;
      tables := new JumpTables();
      blocks := new T.BlockTables(m);
      counter := new Counter();
      requests, exitRequest, lengths := NoRequests, false, [];
      nextTb, currentTb, spentTb, log := Zero, Zero, Zero, [];
      new;
      V.EmptyTables();
    }

    method Note(ghost e: Event)
      requires LogOk(log) && !e.Patched? && !e.Looked?
      modifies this`log
      ensures LogOk(log) && log == old(log) + [e]
    {
      LogOther(log, e);
      log := log + [e];
    }

    /** do_interrupt: the program flow changed, so no block may be patched. */
    method Service(exits: bool)
      requires Valid() && currentTb == spentTb == Zero
      modifies this`requests, this`nextTb, this`log
      ensures Valid() && nextTb == Zero && log == old(log) + [Serviced]
      ensures requests == old(requests).(exitTb := old(requests).exitTb || exits)
    {
      requests := Union(requests, Requests(false, false, false, false, exits));
      nextTb := Zero;
      Note(Serviced);
    }

    /** cpu_loop_exit: the outer loop starts over with no block to patch. */
    method Leave()
      requires Valid() && currentTb == spentTb == Zero
      modifies this`nextTb, this`log
      ensures Valid() && nextTb == Zero && log == old(log) + [Left]
    {
      nextTb := Zero;
      Note(Left);
    }

    /** The interrupt part of an iteration. */
    method Interrupts(m: Masks) returns (left: bool)
      requires Valid() && currentTb == spentTb == Zero
      modifies this`requests, this`nextTb, this`log
      ensures Valid() && left == Leaves(old(requests)) && requests == Pending(old(requests))
      ensures log == old(log) + Events(old(requests), m)
      ensures nextTb == if Events(old(requests), m) == [] then old(nextTb) else Zero
    {
      hide OkBut, LogOk, Taken;
      var request := requests;
      left := false;
      assert NoRequests == request ==> Taken(request, m) == [] by { Quiet(m); }
      if request != NoRequests {
        if m.stepNoIrq { request := request.(hard := false, fiq := false); }
        if request.debug {
          requests := requests.(debug := false);
          Leave();
          return true;
        }
        if request.halt {
          requests := requests.(halt := false);
          Leave();
          return true;
        }
        Take(m, request);
      }
    }

    /** FIQ, IRQ and EXITTB. */
    method Take(m: Masks, request: Requests)
      requires Valid() && currentTb == spentTb == Zero && request == Seen(requests, m)
      modifies this`requests, this`nextTb, this`log
      ensures Valid() && requests == old(requests).(exitTb := false)
      ensures log == old(log) + Taken(old(requests), m)
      ensures nextTb == if Taken(old(requests), m) == [] then old(nextTb) else Zero
    {
      hide Valid;
      ghost var (fiq, hard) := (TakesFiq(requests, m), TakesHard(requests, m));
      if request.fiq && !m.fiqMasked { Service(m.fiqExits); }
      assert log == old(log) + if fiq then [Serviced] else [];
      if request.hard && !m.hardMasked { Service(m.hardExits); }
      assert log == old(log) + ((if fiq then [Serviced] else []) + if hard then [Serviced] else []);
      if requests.exitTb { ServiceExitTb(); }
    }

    method ServiceExitTb()
      requires Valid() && currentTb == spentTb == Zero
      modifies this`requests, this`nextTb, this`log
      ensures Valid() && nextTb == Zero && log == old(log) + [ExitTb] && requests == old(requests).(exitTb := false)
    {
      requests := requests.(exitTb := false);
      nextTb := Zero;
      Note(ExitTb);
    }

    /** The jump fields before and after a block is made: a flush if the array was full, and the new block's. */
    method FlushJumps(full: bool)
      requires tables.Valid()
      modifies tables
      ensures tables.Valid() && |tables.j.tcPtr| == if full then 0 else |old(tables.j.tcPtr)|
      ensures tables.g.live == if full then {} else old(tables.g.live)
    {
      hide OkBut;
      if full { tables.Flush(); }
    }

    method LinkJumps(ptr: int, exit0: int, exit1: int) returns (tb: nat)
      requires tables.Valid()
      modifies tables
      ensures tables.Valid() && tb == |old(tables.j.tcPtr)| && |tables.j.tcPtr| == tb + 1
      ensures tables.g.live == old(tables.g.live) + {tb}
    {
      hide OkBut, LinkBlock;
      LinkGrows(tables.j, ptr, exit0, exit1);
      tb := tables.Link(ptr, exit0, exit1);
    }

    /** What the translator may invalidate, if it is called. */
    ghost predicate CanFind(f: Lookup)
      requires Synced()
      reads tables, blocks
    {
      && f.extent < 0x400 && 1 <= f.length <= CountMask
      && (blocks.Find(f.key) == L.Null ==> if f.full then f.killed == [] else V.CanKill(blocks.Now(), f.killed))
    }

    /** tb_find_fast on both tables: the block that a full walk finds, live, with the key looked up. It goes the slow
        way exactly when the cache does not hold the key. Unless the flag is set, the blocks there were are still
        there and no others came back. */
    method Find(f: Lookup) returns (tb: nat, slow: bool)
      requires Synced() && LengthsOk(lengths, |tables.j.tcPtr|) && CanFind(f)
      modifies tables, blocks, this`lengths
      ensures Synced() && LengthsOk(lengths, |tables.j.tcPtr|)
      ensures blocks.m == old(blocks.m) && V.Entered(blocks.Now(), f.key, tb) && tb in tables.g.live
      ensures old(blocks.Valid()) ==> blocks.Valid() && blocks.Find(f.key) == L.Tb(tb)
      ensures slow == !V.Held(old(blocks.Now()), [], f.key)
      ensures !slow ==> blocks.Now() == old(blocks.Now()) && blocks.invalidated == old(blocks.invalidated)
      ensures slow && old(blocks.Find(f.key)) != L.Null ==>
                !blocks.invalidated && L.Tb(tb) == old(blocks.Find(f.key)) && blocks.t == old(blocks.t)
      ensures slow && old(blocks.Find(f.key)) == L.Null ==>
                blocks.invalidated == (f.full || f.killed != []) &&
                Made(f, |old(blocks.t.blocks)|, blocks.t.blocks, tb, blocks.m)
      ensures old(blocks.Valid()) && old(blocks.Find(f.key)) == L.Null ==> slow
      ensures !blocks.invalidated ==> Grown(old(|tables.j.tcPtr|), old(tables.g.live), |tables.j.tcPtr|, tables.g.live)
    {
      ghost var v := blocks.Now();
      hide OkBut, V.InOrder, V.Agrees, V.Entered, V.CanKill, V.Translates, L.FullWalk, V.LiveIn, H.CacheSlot,
           L.Generated, V.Held, SameBlocks, LengthsOk, Grown, Made, L.LogOk;
      var made;
      tb, slow, made := blocks.FindFast(f.key, f.extent, f.full, f.killed);
      Follow(f, tb, made, v);
      EnteredIn(|tables.j.tcPtr|, tables.g.live, blocks.Now(), f.key, tb);
    }

    /** The jump fields and the lengths after a lookup. */
    method Follow(f: Lookup, tb: nat, made: bool, ghost v: V.View)
      requires tables.Valid() && SameBlocks(|tables.j.tcPtr|, tables.g.live, v) && V.InOrder(v)
      requires LengthsOk(lengths, |tables.j.tcPtr|) && 1 <= f.length <= CountMask
      requires if made then V.Translates(blocks.m, v, blocks.Now(), f.key, f.extent, f.full, f.killed, tb)
               else blocks.Now().t == v.t && blocks.Now().chains == v.chains
      requires made ==> if f.full then f.killed == [] else V.CanKill(v, f.killed)
      modifies tables, this`lengths
      ensures tables.Valid() && SameBlocks(|tables.j.tcPtr|, tables.g.live, blocks.Now())
      ensures LengthsOk(lengths, |tables.j.tcPtr|)
      ensures made ==> Made(f, |v.t.blocks|, blocks.t.blocks, tb, blocks.m)
      ensures !made || (!f.full && f.killed == []) ==>
                Grown(old(|tables.j.tcPtr|), old(tables.g.live), |tables.j.tcPtr|, tables.g.live)
    {
      hide OkBut, V.InOrder, V.CanKill, V.Translates, V.LiveIn, L.Generated, SameBlocks, LengthsOk, Grown;
      LengthsMore(lengths, |tables.j.tcPtr|, f.full, f.length);
      SameCount(|tables.j.tcPtr|, tables.g.live, v);
      GrownBy(|tables.j.tcPtr|, tables.g.live);
      if made {
        FollowTranslator(f, tb, v);
        lengths := (if f.full then [] else lengths) + [f.length];
      } else {
        SameLookup(|tables.j.tcPtr|, tables.g.live, v, blocks.Now());
      }
    }

    /** The jump fields of the block that the lookup made. */
    method FollowTranslator(f: Lookup, tb: nat, ghost v: V.View)
      requires tables.Valid() && SameBlocks(|tables.j.tcPtr|, tables.g.live, v) && V.InOrder(v)
      requires if f.full then f.killed == [] else V.CanKill(v, f.killed)
      requires V.Translates(blocks.m, v, blocks.Now(), f.key, f.extent, f.full, f.killed, tb)
      modifies tables
      ensures tables.Valid() && SameBlocks(|tables.j.tcPtr|, tables.g.live, blocks.Now())
      ensures Made(f, |v.t.blocks|, blocks.t.blocks, tb, blocks.m) && |tables.j.tcPtr| == tb + 1
      ensures !f.full && f.killed == [] ==>
                Grown(old(|tables.j.tcPtr|), old(tables.g.live), |tables.j.tcPtr|, tables.g.live)
    {
      ghost var live := tables.g.live;
      BlocksMade(blocks.m, v, blocks.Now(), f, tb, |tables.j.tcPtr|, live);
      hide OkBut, V.InOrder, V.LiveIn, V.Translates, L.Generated, LinkBlock, SameBlocks, Gone, V.CanKill, OwnerAfter,
           TargetsAfter, Grown;
      GrownBy(|tables.j.tcPtr|, live);
      if !f.full { Killable(|tables.j.tcPtr|, live, v, f.killed); }
      NoneGone();
      FlushJumps(f.full);
      tables.InvalidateAll(f.killed);
      assert tables.g.live == if f.full then {} else live - Gone(f.killed);
      assert f.killed == [] && !f.full ==> tables.g.live == live;
      var made := LinkJumps(f.ptr, f.exit0, f.exit1);
    }

    /** A patch of a dead block is about to happen: nothing is serviced, the block that ran last left by exit 0 or 1
        and is no longer valid, the cache does not hold the key, and the lookup finds or makes, without a flush or an
        invalidation, a block on one page. */
    ghost predicate DeadPatchAhead(m: Masks, f: Lookup)
      requires Synced()
      reads this, tables, blocks
    {
      && Events(requests, m) == [] && !exitRequest
      && nextTb.From? && nextTb.tag < 2 && nextTb.tb !in tables.g.live
      && !V.Held(blocks.Now(), [], f.key) && FindsOnePage(f)
    }

    ghost predicate FindsOnePage(f: Lookup)
      requires Synced()
      reads tables, blocks
    {
      var p := blocks.Find(f.key);
      if p.Tb? then p.id < |blocks.t.blocks| && OnOnePage(blocks.t.blocks[p.id])
      else !f.full && f.killed == [] && OnOnePage(L.Generated(blocks.m, f.key, f.extent))
    }

    /** The lookup, the flag and the patch. */
    method FindAndPatch(f: Lookup) returns (tb: nat)
      requires Valid() && currentTb == spentTb == Zero && !exitRequest && CanFind(f)
      modifies blocks, this`nextTb, this`log, this`lengths, tables
      ensures Synced() && LengthsOk(lengths, |tables.j.tcPtr|) && LogOk(log) && tb in tables.g.live
      ensures !blocks.invalidated && blocks.m == old(blocks.m) && V.Entered(blocks.Now(), f.key, tb)
      ensures old(blocks.Valid()) ==> blocks.Valid() && blocks.Find(f.key) == L.Tb(tb)
      ensures Extends(old(log), log, tb, OnOnePage(blocks.t.blocks[tb]))
      ensures old(blocks.Valid()) && old(blocks.Find(f.key)) == L.Null ==>
                Made(f, |old(blocks.t.blocks)|, blocks.t.blocks, tb, blocks.m)
      ensures log[|log| - 1].Patched? ==> SlotOf(log[|log| - 1]) in tables.g.owner
      ensures DeadPatchLast(log) <==>
                old(nextTb).From? && old(nextTb).tag < 2 && old(nextTb).tb !in old(tables.g.live) &&
                !V.Held(old(blocks.Now()), [], f.key) && old(FindsOnePage(f))
    {
      hide OkBut, LogOk, V.InOrder, V.Agrees, V.LiveIn, L.FullWalk, V.Entered, SameBlocks, L.Generated, V.Held;
      var slow;
      tb, slow := Find(f);
      EnteredLive(blocks.Now(), f.key, tb);
      ghost var looked := Looked(tb, slow, blocks.invalidated, OnOnePage(blocks.t.blocks[tb]));
      if blocks.invalidated {
        nextTb := Zero;
        blocks.invalidated := false;
      }
      PatchLast(tb, looked);
    }

    /** The call of tb_add_jump, after the lookup that looked records. */
    method PatchLast(tb: nat, ghost looked: Event)
      requires tables.Valid() && LogOk(log) && tb in tables.g.live && tb < |blocks.t.blocks|
      requires looked.Looked? && looked.tb == tb && looked.onePage == OnOnePage(blocks.t.blocks[tb])
      requires nextTb.From? ==>
                 && nextTb.tb < |tables.j.tcPtr| && nextTb.tag <= 2 && !looked.flag
                 && |log| > 0 && log[|log| - 1] == Ran(nextTb.tb, nextTb.tag, nextTb.tb in tables.g.live)
                 && (nextTb.tb in tables.g.live || looked.slow)
      requires nextTb == Zero ==> looked.flag || (|log| > 0 ==> !log[|log| - 1].Ran?)
      modifies this`log, tables
      ensures tables.Valid() && tables.j.tcPtr == old(tables.j.tcPtr) && tables.g.live == old(tables.g.live) &&
              LogOk(log)
      ensures |old(log)| < |log| && log[..|old(log)|] == old(log) && log[|old(log)|] == looked
      ensures tables.g.owner ==
                if nextTb.From? && looked.onePage && nextTb.tag < 2 &&
                  Slot(nextTb.tb, nextTb.tag) !in old(tables.g.owner)
                then old(tables.g.owner)[Slot(nextTb.tb, nextTb.tag) := tb] else old(tables.g.owner)
      ensures log[|log| - 1].Patched? ==> SlotOf(log[|log| - 1]) in tables.g.owner
      ensures DeadPatchLast(log) <==>
                nextTb.From? && looked.onePage && nextTb.tag < 2 && nextTb.tb !in old(tables.g.live)
    {
      hide OkBut, LogOk;
      if nextTb.From? && OnOnePage(blocks.t.blocks[tb]) {
        ghost var live := nextTb.tb in tables.g.live;
        tables.AddJump(nextTb.tb, nextTb.tag, tb);
        if nextTb.tag < 2 {
          ghost var patch := Patched(nextTb.tb, nextTb.tag, tb, live);
          LogPatch(log, looked, patch);
          log := log + [looked, patch];
          return;
        }
      }
      LogOther(log, looked);
      log := log + [looked];
    }

    /** One iteration up to the point where the generated code is entered. A dead block is patched exactly as
        DeadPatchAhead says. */
    method Begin(m: Masks, f: Lookup, exit: bool) returns (left: bool, tb: nat)
      requires Valid() && currentTb == spentTb == Zero && CanFind(f)
      modifies this, tables, blocks
      ensures Valid() && left == (Leaves(old(requests)) || old(exitRequest)) && requests == Pending(old(requests))
      ensures blocks.m == old(blocks.m) && (old(blocks.Valid()) ==> blocks.Valid()) && spentTb == Zero
      ensures currentTb.From? <==> !left && !exit
      ensures var before := old(log) + Events(old(requests), m);
              if Leaves(old(requests)) then log == before
              else if left then log == before + [Left]
              else V.Entered(blocks.Now(), f.key, tb) && Extends(before, log, tb, OnOnePage(blocks.t.blocks[tb])) &&
                   (currentTb.From? ==> currentTb.tb == tb)
      ensures !left && old(blocks.Valid()) ==> V.Entered(blocks.Now(), f.key, tb) && blocks.Find(f.key) == L.Tb(tb)
      ensures !left && old(blocks.Valid()) && old(blocks.Find(f.key)) == L.Null ==>
                Made(f, |old(blocks.t.blocks)|, blocks.t.blocks, tb, blocks.m)
      ensures !left && log[|log| - 1].Patched? ==> SlotOf(log[|log| - 1]) in tables.g.owner
      ensures DeadPatchLast(log) && |log| > |old(log)| <==> old(DeadPatchAhead(m, f))
    {
      hide Events, OkBut, LogOk, Extends, V.InOrder, V.Agrees, V.Entered, V.LiveIn, L.FullWalk, V.Held, SameBlocks,
           LengthsOk;
      EventsNoPatch(requests, m, log);
      tb := 0;
      left := Interrupts(m);
      if left { return; }
      if exitRequest {
        exitRequest := false;
        nextTb := Zero;
        Note(Left);
        return true, 0;
      }
      ghost var before := log;
      tb := Enter(f, exit);
      EnteredLive(blocks.Now(), f.key, tb);
      ExtendsMore(before, log, tb, OnOnePage(blocks.t.blocks[tb]));
    }

    /** The part of an iteration from the lookup to the point where the generated code is entered. */
    method Enter(f: Lookup, exit: bool) returns (tb: nat)
      requires Valid() && currentTb == spentTb == Zero && !exitRequest && CanFind(f)
      modifies this`exitRequest, this`currentTb, this`nextTb, this`log, this`lengths, tables, blocks
      ensures Valid() && blocks.m == old(blocks.m) && V.Entered(blocks.Now(), f.key, tb)
      ensures currentTb == if exit then Zero else From(tb, 0)
      ensures old(blocks.Valid()) ==> blocks.Valid() && blocks.Find(f.key) == L.Tb(tb)
      ensures Extends(old(log), log, tb, OnOnePage(blocks.t.blocks[tb]))
      ensures old(blocks.Valid()) && old(blocks.Find(f.key)) == L.Null ==>
                Made(f, |old(blocks.t.blocks)|, blocks.t.blocks, tb, blocks.m)
      ensures log[|log| - 1].Patched? ==> SlotOf(log[|log| - 1]) in tables.g.owner
      ensures DeadPatchLast(log) <==>
                old(nextTb).From? && old(nextTb).tag < 2 && old(nextTb).tb !in old(tables.g.live) &&
                !V.Held(old(blocks.Now()), [], f.key) && old(FindsOnePage(f))
    {
      hide OkBut, LogOk, V.InOrder, V.Agrees, V.LiveIn, L.FullWalk, V.Entered, SameBlocks, L.Generated, V.Held;
      hide LengthsOk, Extends;
      tb := FindAndPatch(f);
      EnteredLive(blocks.Now(), f.key, tb);
      ExtendsMore(old(log), log, tb, OnOnePage(blocks.t.blocks[tb]));
      currentTb := From(tb, 0);
      exitRequest := exit;
      if exitRequest { currentTb := Zero; }
    }

    // ----- execution

    /** cpu_unlink_tb: the block that was entered, and all that patched slots lead to from it. */
    method Unlink()
      requires tables.Valid() && (currentTb.From? ==> currentTb.tb < |tables.j.tcPtr|)
      modifies tables, this`currentTb
      ensures tables.Valid() && tables.g.live == old(tables.g.live) && tables.j.tcPtr == old(tables.j.tcPtr)
      ensures currentTb == Zero
      ensures old(currentTb).From? ==>
                var tb := old(currentTb).tb;
                && Unchained(old(tables.g.owner), tables.g.owner) && OpenedFrom(old(tables.g.owner), tables.g.owner, tb)
                && TargetsFollow(old(tables.j), tables.j, old(tables.g.owner), tables.g.owner)
                && Slot(tb, 0) !in tables.g.owner && Slot(tb, 1) !in tables.g.owner
      ensures old(currentTb) == Zero ==> tables.j == old(tables.j) && tables.g == old(tables.g)
    {
      hide OkBut, Unchained, OpenedFrom, TargetsFollow;
      if currentTb.From? {
        var tb := currentTb.tb;
        currentTb := Zero;
        tables.ResetRecursive(tb);
      }
    }

    /** cpu_exit, which a signal may bring at any time. */
    method CpuExit()
      requires Valid()
      modifies tables, this`currentTb, this`exitRequest
      ensures Valid() && exitRequest && currentTb == Zero && spentTb == old(spentTb)
      ensures tables.g.live == old(tables.g.live) && tables.j.tcPtr == old(tables.j.tcPtr)
    {
      hide OkBut, LogOk, Unchained, OpenedFrom, TargetsFollow, V.LiveIn, V.InOrder;
      exitRequest := true;
      if currentTb.From? { LiveRange(tables.j, tables.g, currentTb.tb); }
      Unlink();
    }

    /** One effect of running code. */
    method Apply(e: Effect)
      requires Synced() && counter.Valid() && (currentTb.From? ==> currentTb.tb < |tables.j.tcPtr|)
      requires e.Invalidates? ==> e.id in tables.g.live
      modifies tables, blocks, counter`high, this`requests, this`exitRequest, this`currentTb
      ensures Synced() && counter.Valid() && Snap() == After(old(Snap()), e)
      ensures tables.j.tcPtr == old(tables.j.tcPtr) && (currentTb == Zero || currentTb == old(currentTb))
      ensures !useIcount ==> counter.high == old(counter.high)
      ensures old(blocks.Valid()) ==> blocks.Valid()
    {
      hide OkBut, V.LiveIn, V.InOrder, V.Agrees, V.Killed, V.OnlyGone, V.StillFound, L.LogOk, SameBlocks, Cleared;
      hide TargetsOpened, Unchained, OpenedFrom, TargetsFollow, L.Flushed, L.RemapsOnly;
      match e
      case Invalidates(id) => Invalidate(id);
      case RemapsAll(m') => Remap(m');
      case RemapsPage(addr, page) => RemapPage(addr, page);
      case Raises(raised) =>
        requests := Union(requests, raised);
        if useIcount { counter.Interrupt(); } else { Unlink(); }
      case Exits =>
        exitRequest := true;
        Unlink();
    }

    /** tb_phys_invalidate on both tables. */
    method Invalidate(id: nat)
      requires Synced() && id in tables.g.live
      modifies tables, blocks
      ensures Synced() && blocks.m == old(blocks.m) && blocks.Now() == V.Killed(old(blocks.Now()), id)
      ensures blocks.invalidated && (old(blocks.Valid()) ==> blocks.Valid())
      ensures tables.g.live == old(tables.g.live) - {id} && tables.j.tcPtr == old(tables.j.tcPtr)
    {
      ghost var (v, live) := (blocks.Now(), tables.g.live);
      hide OkBut, V.LiveIn, V.InOrder, V.Killed, V.Agrees, V.StillFound, V.OnlyGone, TargetsOpened;
      tables.Invalidate(id);
      blocks.Invalidate(id);
      OneGone(|tables.j.tcPtr|, live, v, blocks.Now(), id);
    }

    /** tlb_flush after any change of the code mapping. */
    method Remap(m: L.Mapping)
      requires Synced()
      modifies blocks
      ensures Synced() && blocks.m == m && blocks.Now() == old(blocks.Now()).(cache := L.Empty(4096))
      ensures blocks.invalidated == old(blocks.invalidated) && blocks.Valid()
    {
      ghost var v := blocks.Now();
      hide OkBut, V.LiveIn, V.InOrder, V.Agrees, L.LogOk, SameBlocks;
      blocks.FlushAll(m);
      SameLookup(|tables.j.tcPtr|, tables.g.live, v, blocks.Now());
    }

    /** tlb_flush_page after a change of one page. */
    method RemapPage(addr: bv32, page: bv32)
      requires Synced()
      modifies blocks
      ensures Synced() && blocks.m == Remapped(old(blocks.m), addr, page)
      ensures blocks.Now() == old(blocks.Now()).(cache := Cleared(old(blocks.cache), addr))
      ensures blocks.invalidated == old(blocks.invalidated) && (old(blocks.Valid()) ==> blocks.Valid())
    {
      ghost var v := blocks.Now();
      hide OkBut, V.LiveIn, V.InOrder, V.Agrees, L.LogOk, SameBlocks, L.Flushed, L.RemapsOnly, Cleared;
      RemappedOnly(blocks.m, addr, page);
      blocks.FlushPage(addr, Remapped(blocks.m, addr, page));
      ClearedIs(v.cache, blocks.cache, addr);
      SameLookup(|tables.j.tcPtr|, tables.g.live, v, blocks.Now());
    }

    /** What happens while one block runs. */
    method ApplyAll(es: seq<Effect>, ghost s: State, ghost done: seq<Effect>, ghost rest: seq<Effect>)
      requires Synced() && counter.Valid() && (currentTb.From? ==> currentTb.tb < |tables.j.tcPtr|)
      requires Snap() == AfterAll(s, done) && CanDo(s.live, done + es + rest)
      modifies tables, blocks, counter`high, this`requests, this`exitRequest, this`currentTb
      ensures Synced() && counter.Valid() && Snap() == AfterAll(s, done + es)
      ensures tables.j.tcPtr == old(tables.j.tcPtr) && (currentTb == Zero || currentTb == old(currentTb))
      ensures !useIcount ==> counter.high == old(counter.high)
      ensures old(blocks.Valid()) ==> blocks.Valid()
    {
      hide OkBut, V.InOrder, V.Agrees, L.LogOk, SameBlocks, After, AfterAll, CanDo;
      assert done + es[..0] == done;
      for i := 0 to |es|
        invariant Synced() && counter.Valid() && Snap() == AfterAll(s, done + es[..i])
        invariant tables.j.tcPtr == old(tables.j.tcPtr) && (currentTb == Zero || currentTb == old(currentTb))
        invariant !useIcount ==> counter.high == old(counter.high)
        invariant old(blocks.Valid()) ==> blocks.Valid()
      {
        ghost var before := done + es[..i];
        assert done + es + rest == before + [es[i]] + (es[i + 1..] + rest);
        if es[i].Invalidates? { NextEffect(s, before, es[i], es[i + 1..] + rest); }
        AfterMore(s, before, es[i]);
        assert before + [es[i]] == done + es[..i + 1];
        Apply(es[i]);
      }
      assert es[..|es|] == es;
    }

    /** What the generated code may do once it is entered at tb. */
    ghost predicate CanRun(tb: nat, x: Execution)
      reads this, tables
    {
      && |x.stops| > 0 && x.stops[0].tb == tb && JumpPath(tables.g.owner, Blocks(x.stops))
      && (x.way.Jump? ==> x.way.n < 2) && CanDo(tables.g.live, EffectsOf(x.stops))
      && var last := x.stops[|x.stops| - 1].tb; x.faulted && last < |lengths| ==> x.fault < lengths[last]
    }

    /** The check that opens a block of n instructions under instruction counting, and its instructions. */
    method Open(n: nat, faulted: bool, fault: nat) returns (expired: bool)
      requires counter.Valid() && 1 <= n <= CountMask && (faulted ==> fault < n)
      modifies counter`low, counter`executed
      ensures counter.Valid() && counter.executed >= old(counter.executed)
      ensures expired <==> useIcount && (counter.high == 0xffff || old(counter.low) < n)
      ensures expired || !useIcount ==> counter.low == old(counter.low) && counter.executed == old(counter.executed)
      ensures useIcount && !expired ==> counter.executed == old(counter.executed) + if faulted then fault else n
    {
      expired := false;
      if useIcount {
        if faulted {
          expired := counter.FaultingBlock(n, fault);
        } else {
          expired := counter.Block(n);
        }
      }
    }

    /** One block of the path: its check, and what happens while it runs. */
    method RunStop(x: Execution, i: nat, ghost s: State) returns (expired: bool)
      requires i < |x.stops| && x.stops[i].tb < |lengths| && LengthsOk(lengths, |tables.j.tcPtr|)
      requires x.faulted && i + 1 == |x.stops| ==> x.fault < lengths[x.stops[i].tb]
      requires Running(s, EffectsOf(Front(x.stops, i))) && CanDo(s.live, EffectsOf(x.stops))
      modifies tables, blocks, counter`low, counter`executed, counter`high, this`requests, this`exitRequest,
               this`currentTb
      ensures Running(s, EffectsOf(Front(x.stops, if expired then i else i + 1)))
      ensures tables.j.tcPtr == old(tables.j.tcPtr) && (currentTb == Zero || currentTb == old(currentTb))
      ensures counter.executed >= old(counter.executed)
      ensures expired ==> useIcount && (counter.high == 0xffff || counter.low < lengths[x.stops[i].tb])
      ensures !useIcount ==> counter.executed == old(counter.executed) && counter.high == old(counter.high)
      ensures old(blocks.Valid()) ==> blocks.Valid()
    {
      hide OkBut, V.InOrder, V.Agrees, SameBlocks, L.LogOk, AfterAll, CanDo, EffectsOf;
      expired := Open(lengths[x.stops[i].tb], x.faulted && i + 1 == |x.stops|, x.fault);
      if !expired {
        EffectsNext(x.stops, i);
        ghost var rest := EffectsFront(x.stops, i + 1);
        ApplyAll(x.stops[i].effects, s, EffectsOf(Front(x.stops, i)), rest);
      }
    }

    /** The state of a run that started from s, after some effects. */
    ghost predicate Running(s: State, es: seq<Effect>)
      reads this, tables, blocks, counter
    {
      && Synced() && counter.Valid() && (currentTb.From? ==> currentTb.tb < |tables.j.tcPtr|)
      && Snap() == AfterAll(s, es)
    }

    /** tcg_qemu_tb_exec: the blocks run one after the other until the budget or the path ends. */
    method RunCode(x: Execution) returns (expired: bool, last: nat, ran: nat)
      requires Valid() && currentTb.From? && CanRun(currentTb.tb, x)
      modifies tables, blocks, counter`low, counter`executed, counter`high, this`requests, this`exitRequest,
               this`currentTb
      ensures ran <= |x.stops| && Running(old(Snap()), EffectsOf(Front(x.stops, ran)))
      ensures tables.j.tcPtr == old(tables.j.tcPtr) && last < |tables.j.tcPtr|
      ensures expired <==> ran < |x.stops|
      ensures last == LastBlock(x.stops, ran) && last in old(tables.g.live)
      ensures counter.executed >= old(counter.executed)
      ensures expired ==> useIcount && (counter.high == 0xffff || counter.low < lengths[last])
      ensures !useIcount ==> counter.executed == old(counter.executed) && counter.high == old(counter.high)
      ensures old(blocks.Valid()) ==> blocks.Valid()
    {
      hide OkBut, LogOk, JumpPath, V.InOrder, V.Agrees, SameBlocks, L.LogOk, AfterAll, CanDo, EffectsOf, LengthsOk;
      ghost var s := Snap();
      StopsLive(tables.j, tables.g, x.stops, lengths);
      StartRun(s, x.stops);
      LiveRange(tables.j, tables.g, currentTb.tb);
      assert Running(s, EffectsOf(Front(x.stops, 0)));
      hide Running, Synced;
      expired, ran, last := false, 0, x.stops[0].tb;
      while ran < |x.stops|
        invariant ran <= |x.stops| && Running(s, EffectsOf(Front(x.stops, ran))) &&
                  tables.j.tcPtr == old(tables.j.tcPtr)
        invariant last == x.stops[if ran == 0 then 0 else ran - 1].tb
        invariant counter.executed >= old(counter.executed)
        invariant !useIcount ==> counter.executed == old(counter.executed) && counter.high == old(counter.high)
        invariant old(blocks.Valid()) ==> blocks.Valid()
      {
        last := x.stops[ran].tb;
        expired := RunStop(x, ran, s);
        if expired { return; }
        ran := ran + 1;
      }
    }

    /** The execution part. The generated code ends in the last block it ran, or in the first one that does not fit the
        budget. Then the budget is filled again, or a one-use block is to spend the rest, or the loop is left. The
        instruction clock counts what was executed. */
    method Execute(x: Execution) returns (left: bool, expired: bool, last: nat, ran: nat)
      requires Valid() && currentTb.From? && CanRun(currentTb.tb, x)
      modifies this, tables, blocks, counter
      ensures Valid() && currentTb == Zero && lengths == old(lengths) && tables.j.tcPtr == old(tables.j.tcPtr)
      ensures Snap() == AfterAll(old(Snap()), EffectsOf(Front(x.stops, ran)))
      ensures (expired <==> ran < |x.stops|) && ran <= |x.stops| && last == LastBlock(x.stops, ran)
      ensures (old(blocks.Valid()) ==> blocks.Valid()) && (expired ==> useIcount)
      ensures log == old(log) + Ending(x, expired, left, last, last in tables.g.live)
      ensures nextTb == if left || spentTb.From? then Zero else Leaving(x, expired, last)
      ensures !expired ==> left == x.faulted && spentTb == Zero
      ensures spentTb.From? ==> !left && spentTb == From(last, 2)
      ensures counter.icount == old(counter.icount) && counter.executed >= old(counter.executed)
      ensures expired && left && counter.high == 0 ==> counter.Left() == 0
      ensures expired && !left && spentTb == Zero ==>
                counter.high == 0 && counter.extra < old(counter.extra) + old(counter.low)
    {
      hide OkBut, LogOk, JumpPath, V.InOrder, V.Agrees, V.LiveIn, SameBlocks, L.LogOk, AfterAll, CanDo, EffectsOf;
      expired, last, ran := RunCode(x);
      left := false;
      currentTb := Zero;
      LastOrFlag(old(Snap()), EffectsOf(Front(x.stops, ran)), last);
      if expired {
        left := Expired(last);
      } else if x.faulted {
        left := true;
        nextTb := Zero;
        Note(Left);
      } else if x.way == Plain {
        nextTb := Zero;
        Note(Returned);
      } else {
        nextTb := From(last, x.way.n);
        Note(Ran(last, x.way.n, last in tables.g.live));
      }
    }

    /** A block did not fit the budget: fill the low half again, or leave the rest to a one-use block, or leave. */
    method Expired(last: nat) returns (left: bool)
      requires Synced() && counter.Valid() && LengthsOk(lengths, |tables.j.tcPtr|) && LogOk(log)
      requires currentTb == spentTb == Zero && useIcount && last < |lengths|
      requires counter.high == 0xffff || counter.low < lengths[last]
      requires last in tables.g.live || blocks.invalidated
      modifies counter, this`nextTb, this`spentTb, this`log
      ensures Valid() && log == old(log) + [Ran(last, 2, last in tables.g.live)] + if left then [Left] else []
      ensures nextTb == if left || spentTb.From? then Zero else From(last, 2)
      ensures spentTb.From? ==> !left && spentTb == From(last, 2)
      ensures counter.icount == old(counter.icount) && counter.executed == old(counter.executed)
      ensures counter.high == old(counter.high)
      ensures left && counter.high == 0 ==> counter.Left() == 0
      ensures !left && spentTb == Zero ==> counter.high == 0 && counter.extra < old(counter.extra)
    {
      hide OkBut, LogOk, V.InOrder, V.LiveIn, SameBlocks;
      left := false;
      nextTb := From(last, 2);
      Note(Ran(last, 2, last in tables.g.live));
      var insnsLeft := SignedWord(counter.high, counter.low);
      if counter.extra != 0 && insnsLeft >= 0 {
        counter.Refill(insnsLeft);
      } else {
        nextTb := Zero;
        if insnsLeft > 0 {
          spentTb := From(last, 2);
        } else {
          left := true;
          Note(Left);
        }
      }
    }

    /** What the one-use block may do. */
    ghost predicate CanSpend(o: Once)
      reads blocks
    {
      o.extent < 0x400 && V.RunKills(V.Base(blocks.Now(), o.full, []), o.killed) && (o.early ==> o.killed == [])
    }

    /** cpu_exec_nocache and the cpu_loop_exit after it. The run is lost when the block invalidated itself: the
        invalidation after it walks off the chain. A run that nothing interrupts spends the budget exactly. */
    method Spend(o: Once) returns (faulted: bool, lost: bool)
      requires Valid() && currentTb == Zero && spentTb.From? && CanSpend(o)
      modifies this, tables, blocks, counter
      ensures Valid() && spentTb == currentTb == nextTb == Zero && log == old(log) + [Left]
      ensures requests == Union(old(requests), o.raised) && exitRequest == old(exitRequest) && blocks.m == old(blocks.m)
      ensures faulted <==> !o.early && o.fault < old(counter.low)
      ensures AfterOnce(old(blocks.Now()), blocks.Now(), o, faulted, lost)
      ensures old(blocks.Valid()) ==>
                var key := old(blocks.t.blocks)[old(spentTb).tb].key;
                (blocks.Valid() <==> Agreeing(old(blocks.Now()), o, faulted, key))
      ensures counter.icount == old(counter.icount) && counter.executed >= old(counter.executed)
      ensures !o.early && !faulted ==>
                counter.Left() == 0 && counter.executed == old(counter.executed) + old(counter.low)
    {
      hide OkBut, LogOk, V.InOrder, V.Agrees, V.LiveIn, V.Base, V.RunKills, SameBlocks, AfterOnce, Agreeing, L.LogOk;
      var (tb, max) := (spentTb.tb, counter.low);
      SameCount(|tables.j.tcPtr|, tables.g.live, blocks.Now());
      faulted := counter.NoCache(max, lengths[tb], o.early, o.fault);
      lost := RunOnce(blocks.t.blocks[tb].key, o, faulted, Min(lengths[tb], max));
      if !o.early && o.raised != NoRequests { counter.Interrupt(); }
      requests := Union(requests, o.raised);
      spentTb, nextTb := Zero, Zero;
      Note(Left);
    }

    /** cpu_exec_nocache on both tables. */
    method RunOnce(key: L.Key, o: Once, faulted: bool, length: nat) returns (lost: bool)
      requires Synced() && LengthsOk(lengths, |tables.j.tcPtr|) && CanSpend(o) && 1 <= length <= CountMask
      modifies tables, blocks, this`lengths
      ensures Synced() && LengthsOk(lengths, |tables.j.tcPtr|) && blocks.m == old(blocks.m)
      ensures AfterOnce(old(blocks.Now()), blocks.Now(), o, faulted, lost)
      ensures old(blocks.Valid()) ==> (blocks.Valid() <==> Agreeing(old(blocks.Now()), o, faulted, key))
    {
      ghost var base := V.Base(blocks.Now(), o.full, []);
      ghost var count, live := FlushedBlocks(blocks.Now(), o, |tables.j.tcPtr|, tables.g.live);
      V.BaseInOrder(blocks.Now(), o.full);
      hide OkBut, V.InOrder, V.Agrees, V.LiveIn, V.KilledAll, V.Base, V.RunKills, V.Running, L.Generated, L.ChainFor,
           SameBlocks, V.Held, L.LogOk, LengthsOk, CanFollow;
      lost := blocks.NoCache(key, o.extent, o.full, o.killed, faulted);
      BlocksOnce(blocks.m, base, blocks.Now(), key, o, live, faulted || lost);
      FollowOnce(o, faulted || lost, length);
    }

    /** The jump fields and the length of the one-use block. */
    method FollowOnce(o: Once, stays: bool, length: nat)
      requires tables.Valid() && LengthsOk(lengths, |tables.j.tcPtr|) && 1 <= length <= CountMask
      requires CanFollow(o, FlushedJumps(o.full, |tables.j.tcPtr|, tables.g.live), stays)
      modifies tables, this`lengths
      ensures tables.Valid() && LengthsOk(lengths, |tables.j.tcPtr|)
      ensures var (n, live) := FlushedJumps(o.full, old(|tables.j.tcPtr|), old(tables.g.live));
              && |tables.j.tcPtr| == (if stays then n + 1 else n)
              && tables.g.live == (if stays then live + {n} else live) - Gone(o.killed)
    {
      hide OkBut, LengthsOk, CanFollow;
      LengthsMore(lengths, |tables.j.tcPtr|, o.full, length);
      JumpsOnce(o, stays);
      lengths := (if o.full then [] else lengths) + if stays then [length] else [];
    }

    /** The jump fields while a one-use block is made, run and removed, unless it stays. */
    method JumpsOnce(o: Once, stays: bool)
      requires tables.Valid() && CanFollow(o, FlushedJumps(o.full, |tables.j.tcPtr|, tables.g.live), stays)
      modifies tables
      ensures tables.Valid()
      ensures var (n, live) := FlushedJumps(o.full, old(|tables.j.tcPtr|), old(tables.g.live));
              && |tables.j.tcPtr| == (if stays then n + 1 else n)
              && tables.g.live == (if stays then live + {n} else live) - Gone(o.killed)
    {
      hide OkBut, OwnerAfter, TargetsAfter, TargetsOpened;
      FlushJumps(o.full);
      var n := LinkJumps(o.ptr, o.exit0, o.exit1);
      tables.InvalidateAll(o.killed);
      if !stays {
        tables.Invalidate(n);
        tables.Free(n);
      }
    }
  }

  function FlushedJumps(full: bool, count: nat, live: set<nat>): (nat, set<nat>) {
    if full then (0, {}) else (count, live)
  }

  /** The slot a patch is about. */
  function SlotOf(e: Event): Slot
    requires e.Patched?
  {
    Slot(e.tb, e.n)
  }

  function Front(stops: seq<Stop>, n: nat): seq<Stop> { if n <= |stops| then stops[..n] else stops }

  /** The block in which the code leaves after n blocks have run: the next one if there is one, else the last. */
  function LastBlock(stops: seq<Stop>, n: nat): nat {
    if n < |stops| then stops[n].tb else if stops != [] then stops[|stops| - 1].tb else 0
  }

  /** What the code returns to the loop. */
  function Leaving(x: Execution, expired: bool, last: nat): NextTb {
    if expired then From(last, 2) else if x.way.Jump? then From(last, x.way.n) else Zero
  }

  /** What a run of generated code leaves in the log. */
  ghost function Ending(x: Execution, expired: bool, left: bool, last: nat, live: bool): seq<Event> {
    if expired then [Ran(last, 2, live)] + if left then [Left] else []
    else if x.faulted then [Left]
    else if x.way == Plain then [Returned]
    else [Ran(last, x.way.n, live)]
  }

  /** A one-use block that was removed leaves nothing behind but what its run invalidated. One that invalidated itself
      is not found again. */
  ghost predicate AfterOnce(v: V.View, now: V.View, o: Once, faulted: bool, lost: bool) {
    var base := V.Base(v, o.full, []);
    && lost == (!faulted && |base.t.blocks| in o.killed)
    && (!lost && !faulted ==> now == V.KilledAll(base, o.killed))
  }

  /** The cache agrees with full walks after a one-use block for the key. */
  ghost predicate Agreeing(v: V.View, o: Once, faulted: bool, key: L.Key) {
    var base := V.Base(v, o.full, []);
    !faulted || |base.t.blocks| in o.killed || !V.Held(base, o.killed, key)
  }

  /** The newest block is the one that f describes. */
  ghost predicate Made(f: Lookup, count: nat, blocks: seq<L.Block>, tb: nat, m: L.Mapping) {
    tb == (if f.full then 0 else count) && |blocks| == tb + 1 && blocks[tb] == L.Generated(m, f.key, f.extent)
  }

  /** The blocks there were are still there, and only newer ones came. */
  ghost predicate Grown(count: nat, live: set<nat>, count': nat, live': set<nat>) {
    count <= count' && live <= live' && forall b :: b in live' && b < count ==> b in live
  }

  lemma {:induction false} GrownBy(count: nat, live: set<nat>)
    ensures Grown(count, live, count, live) && Grown(count, live, count + 1, live + {count})
  {}

  lemma {:induction false} NoneGone()
    ensures Gone([]) == {}
  {}

  lemma {:induction false} Killable(count: nat, live: set<nat>, v: V.View, killed: seq<nat>)
    requires SameBlocks(count, live, v) && V.CanKill(v, killed)
    ensures forall i :: 0 <= i < |killed| ==> killed[i] in live
    ensures NoDup(killed)
  {
    hide V.LiveIn;
  }

  lemma {:induction false} OneGone(count: nat, live: set<nat>, v: V.View, w: V.View, id: nat)
    requires SameBlocks(count, live, v) && V.OnlyGone(v.t.blocks, v.chains, w.chains, id) && w.t.blocks == v.t.blocks
    ensures SameBlocks(count, live - {id}, w)
  {
    hide L.Live;
  }

  lemma {:induction false} SameLookup(count: nat, live: set<nat>, v: V.View, w: V.View)
    requires SameBlocks(count, live, v) && w.t == v.t && w.chains == v.chains
    ensures SameBlocks(count, live, w)
  {
    V.SameLive(v, w);
    hide V.LiveIn;
  }

  lemma {:induction false} EnteredIn(count: nat, live: set<nat>, v: V.View, k: L.Key, tb: nat)
    requires SameBlocks(count, live, v) && V.Entered(v, k, tb)
    ensures tb in live
  {
    EnteredLive(v, k, tb);
    hide V.LiveIn, V.Entered;
  }

  lemma {:induction false} LengthsMore(lengths: seq<nat>, count: nat, full: bool, length: nat)
    requires LengthsOk(lengths, count) && 1 <= length <= CountMask
    ensures LengthsOk((if full then [] else lengths) + [length], (if full then 0 else count) + 1)
    ensures LengthsOk((if full then [] else lengths) + [], if full then 0 else count)
  {}

  lemma {:induction false} StopsLive(j: Jumps, g: Shape, stops: seq<Stop>, lengths: seq<nat>)
    requires Ok(j, g) && stops != [] && stops[0].tb in g.live && JumpPath(g.owner, Blocks(stops))
    requires LengthsOk(lengths, |j.tcPtr|)
    ensures forall i :: 0 <= i < |stops| ==> stops[i].tb in g.live && stops[i].tb < |lengths| == |j.tcPtr|
  {
    PathStaysLive(j, g, Blocks(stops));
    hide OkBut, JumpPath;
    forall i | 0 <= i < |stops| ensures stops[i].tb in g.live && stops[i].tb < |j.tcPtr| {
      assert Blocks(stops)[i] == stops[i].tb;
    }
  }

  lemma {:induction false} StartRun(s: State, stops: seq<Stop>)
    ensures EffectsOf(Front(stops, 0)) == [] && AfterAll(s, []) == s
  {}

  /** A block that was valid and is not any more was invalidated, so the flag is set. */
  lemma {:induction false} LastOrFlag(s: State, es: seq<Effect>, last: nat)
    requires last in s.live
    ensures last in AfterAll(s, es).live || AfterAll(s, es).flag
  {
    LiveAfter(s, es);
    hide AfterAll;
  }

  lemma {:induction false} ExtendsMore(before: seq<Event>, log: seq<Event>, tb: nat, onePage: bool)
    requires Extends(before, log, tb, onePage)
    ensures |before| < |log|
  {}

  lemma {:induction false} EventsNoPatch(r: Requests, m: Masks, log: seq<Event>)
    ensures Leaves(r) ==> Events(r, m) != []
    ensures Events(r, m) != [] ==> !DeadPatchLast(log + Events(r, m))
  {}

  lemma {:induction false} BlocksMade(m: L.Mapping, v: V.View, w: V.View, f: Lookup, tb: nat, count: nat,
                                      live: set<nat>)
    requires SameBlocks(count, live, v) && V.InOrder(v) && (!f.full ==> V.CanKill(v, f.killed))
    requires V.Translates(m, v, w, f.key, f.extent, f.full, f.killed, tb)
    ensures Made(f, |v.t.blocks|, w.t.blocks, tb, m) && |v.t.blocks| == count
    ensures SameBlocks(tb + 1, (if f.full then {} else live - Gone(f.killed)) + {tb}, w)
  {
    V.TranslatesLive(m, v, w, f.key, f.extent, f.full, f.killed, tb);
    hide L.TablesOk, V.CacheLive, V.LiveIn, V.Translates, L.Generated;
  }

  lemma {:induction false} EnteredLive(v: V.View, k: L.Key, id: nat)
    requires V.Entered(v, k, id)
    ensures V.LiveIn(v, id) && id < |v.t.blocks| && v.t.blocks[id].key == k
  {}

  lemma {:induction false} LinkGrows(j: Jumps, ptr: int, exit0: int, exit1: int)
    ensures LinkBlock(j, ptr, exit0, exit1).tcPtr == j.tcPtr + [ptr]
  {}

  /** A block that invalidates itself and leaves by exit 0 is patched all the same when the next lookup goes
      the slow way: the chain walk begins by clearing the flag. */
  method DeadBlockPatched(m: L.Mapping, k: L.Key) returns (l: Loop)
    ensures l.Valid() && l.blocks.Valid() && PatchedDead(l.log)
  {
    l := SelfInvalidated(m, k);
    hide OkBut, LogOk, PatchedDead, Extends, Events, V.InOrder, V.Agrees, L.FullWalk, L.Generated, V.Entered,
         SameBlocks, V.CanKill, V.Held, V.LiveIn;
    var (masks, f) := (Masks(false, true, true, false, false), Lookup(k, 0, 1, 0, 0, 0, false, []));
    Quiet(masks);
    V.NoneToKill(l.blocks.Now());
    L.OnePageKnown(m, k, 0);
    H.FirstByte(k.pc);
    var left, b;
    left, b := l.Begin(masks, f, false);
    DeadPatchLasts(l.log);
  }

  /** A block on its own that has run, invalidated itself and left by exit 0. */
  method SelfInvalidated(m: L.Mapping, k: L.Key) returns (l: Loop)
    ensures l.Valid() && l.blocks.Valid() && fresh(l) && fresh(l.tables) && fresh(l.blocks) && l.blocks.m == m
    ensures l.currentTb == l.spentTb == Zero && l.requests == NoRequests && !l.exitRequest
    ensures l.blocks.Find(k) == L.Null && !V.Held(l.blocks.Now(), [], k)
    ensures l.nextTb.From? && l.nextTb.tag == 0 && l.nextTb.tb !in l.tables.g.live
  {
    l := new Loop(m, false);
    hide OkBut, LogOk, Extends, Events, V.InOrder, V.Agrees, L.FullWalk, L.Generated, V.Entered, SameBlocks, V.CanKill,
         V.Killed, V.Held, AfterAll, EffectsOf, CanDo;
    var masks := Masks(false, true, true, false, false);
    Quiet(masks);
    V.NoneToKill(l.blocks.Now());
    var left, b, expired, last, ran;
    left, b := l.Begin(masks, Lookup(k, 0, 1, 0, 0, 0, false, []), false);
    var tb := l.currentTb.tb;
    ghost var s := l.Snap();
    OneKill(s, tb);
    left, expired, last, ran := l.Execute(Execution([Stop(tb, [Invalidates(tb)])], Jump(0), false, 0));
    assert Front([Stop(tb, [Invalidates(tb)])], ran) == [Stop(tb, [Invalidates(tb)])];
    EnteredLive(s.view, k, tb);
    AllKilled(m, s.view, k, tb);
  }

  lemma {:induction false} OneKill(s: State, tb: nat)
    requires tb in s.live
    ensures var es := EffectsOf([Stop(tb, [Invalidates(tb)])]);
            CanDo(s.live, es) && AfterAll(s, es) == After(s, Invalidates(tb))
  {
    hide After;
    var (e, stops) := (Invalidates(tb), [Stop(tb, [Invalidates(tb)])]);
    EffectsNext(stops, 0);
    assert stops[..1] == stops && stops[..0] == [] && EffectsOf([]) == [] && AfterAll(s, []) == s && Kills([]) == [];
    AfterMore(s, [], e);
    hide EffectsOf, AfterAll, Kills;
    assert [] + [e] == [e];
  }

  /** No key finds a block once the only one is invalidated. */
  lemma {:induction false} AllKilled(m: L.Mapping, v: V.View, k: L.Key, tb: nat)
    requires V.InOrder(v) && V.LiveIn(v, tb) && |v.t.blocks| == 1
    ensures var w := V.Killed(v, tb);
            && |w.chains| == 0x8000 && L.FullWalk(m, w.t.blocks, w.chains, k) == L.Null && !V.Held(w, [], k)
  {
    var w := V.Killed(v, tb);
    hide L.Live, V.CacheLive, L.ChainsOk, L.FullWalk, V.Killed, V.Held;
    V.KilledSound(v, tb);
    V.KilledInOrder(v, tb);
    V.LiveInRange(v, tb);
    forall id: nat ensures !V.LiveIn(w, id) {
      V.LiveInRange(v, id);
      assert L.Live(w.t.blocks, w.chains, id) <==> L.Live(v.t.blocks, v.chains, id) && id != tb;
    }
    NothingFiled(m, w, k);
  }

  lemma {:induction false} NothingFiled(m: L.Mapping, w: V.View, k: L.Key)
    requires V.InOrder(w) && forall id: nat :: !V.LiveIn(w, id)
    ensures |w.chains| == 0x8000 && L.FullWalk(m, w.t.blocks, w.chains, k) == L.Null && !V.Held(w, [], k)
  {
    hide V.CacheLive, L.ChainsOk, L.FullWalk, V.Held, V.LiveIn, H.CacheSlot;
    V.FoundLive(m, w, k);
    V.CacheTest(m, w, k);
  }

  lemma {:induction false} SameCount(count: nat, live: set<nat>, v: V.View)
    requires SameBlocks(count, live, v)
    ensures count == |v.t.blocks|
  {}

  ghost predicate CanFollow(o: Once, start: (nat, set<nat>), stays: bool) {
    var (n, live) := start;
    && (forall i :: 0 <= i < |o.killed| ==> o.killed[i] in live + {n}) && NoDup(o.killed)
    && n !in live && (n in o.killed ==> stays)
  }

  /** What a one-use block starts from. */
  lemma {:induction false} FlushedBlocks(v: V.View, o: Once, count: nat, live: set<nat>)
    returns (n: nat, left: set<nat>)
    requires SameBlocks(count, live, v) && V.RunKills(V.Base(v, o.full, []), o.killed)
    ensures (n, left) == FlushedJumps(o.full, count, live) && (n in o.killed || CanFollow(o, (n, left), false))
    ensures CanFollow(o, (n, left), true)
    ensures SameBlocks(n, left, V.Base(v, o.full, [])) && n == |V.Base(v, o.full, []).t.blocks|
  {
    if o.full { V.EmptyTables(); } else { V.KilledNone(v); }
    n := if o.full then 0 else count;
    left := if o.full then {} else live;
    V.LiveInRange(v, count);
    hide V.LiveIn, V.KilledAll;
  }

  lemma {:induction false} BlocksOnce(m: L.Mapping, base: V.View, w: V.View, key: L.Key, o: Once, live: set<nat>,
                                      stays: bool)
    requires SameBlocks(|base.t.blocks|, live, base) && V.InOrder(base) && o.extent < 0x400 &&
             V.RunKills(base, o.killed)
    requires if stays then V.Running(w, base, L.Generated(m, key, o.extent), L.ChainFor(m, key), o.killed)
             else |base.t.blocks| !in o.killed && w == V.KilledAll(base, o.killed)
    ensures var n := |base.t.blocks|;
            SameBlocks(if stays then n + 1 else n, (if stays then live + {n} else live) - Gone(o.killed), w)
  {
    hide V.InOrder, V.RunKills, V.Running, L.Generated, L.ChainFor, V.KilledAll, SameBlocks;
    if stays { BlocksLeft(m, base, w, key, o, live); } else { BlocksRemoved(base, o.killed, live); }
  }

  lemma {:induction false} BlocksRemoved(base: V.View, killed: seq<nat>, live: set<nat>)
    requires SameBlocks(|base.t.blocks|, live, base) && V.InOrder(base) && V.RunKills(base, killed) &&
             |base.t.blocks| !in killed
    ensures SameBlocks(|base.t.blocks|, live - Gone(killed), V.KilledAll(base, killed))
  {
    hide V.LiveIn, V.InOrder, V.RunKills, V.KilledAll;
    V.RemovedLive(base, killed);
  }

  lemma {:induction false} BlocksLeft(m: L.Mapping, base: V.View, w: V.View, key: L.Key, o: Once, live: set<nat>)
    requires SameBlocks(|base.t.blocks|, live, base) && V.InOrder(base) && o.extent < 0x400
    requires V.RunKills(base, o.killed)
    requires V.Running(w, base, L.Generated(m, key, o.extent), L.ChainFor(m, key), o.killed)
    ensures SameBlocks(|base.t.blocks| + 1, live + {|base.t.blocks|} - Gone(o.killed), w)
  {
    hide V.LiveIn, V.InOrder, V.RunKills, V.Running, L.Generated, L.ChainFor;
    V.LeftLive(m, base, w, key, o.extent, o.killed);
  }

  lemma {:induction false} LiveRange(j: Jumps, g: Shape, b: nat)
    requires Ok(j, g) && b in g.live
    ensures b < |j.tcPtr|
  {
    assert b in g.live + {};
  }
}
