/**
 Stopping generated code (exec.c:1299-1342, exec.c:1561-1579). cpu_unlink_tb resets the jumps of the
 block that was entered last and of every block that patched slots lead to from it, so that the code
 comes back to the loop. Blocks may have been invalidated since the code was entered: they are no
 longer in any list, but their native jumps are still there.
 */
module TbUnchain {
  import opened Common
  import opened TbChain

  /** After the unchaining from tb a slot goes to its exit exactly when it did before, or was patched in a block that
      patched slots lead to. */
  lemma {:induction false} ResetExactly(j: Jumps, j': Jumps, was: map<Slot, nat>, now: map<Slot, nat>, tb: nat, s: Slot)
    requires Unchained(was, now) && OpenedFrom(was, now, tb) && Slot(tb, 0) !in now && Slot(tb, 1) !in now
    requires TargetsFollow(j, j', was, now) && s in j.target && s in j.exits && s.n < 2
    ensures s in j'.target
    ensures j'.target[s] == j.exits[s] <==> j.target[s] == j.exits[s] || (s in was && Leads(was, tb, s.tb))
  {
    hide Leads;
    if s in was { UnchainedExactly(was, now, tb, s); }
  }

  /** Patched slots lead from tb to b through blocks that were not invalidated. */
  ghost predicate Untouched(owner: map<Slot, nat>, killed: seq<nat>, tb: nat, b: nat) {
    exists path :: Route(owner, path, tb, b) && Spared(path, killed)
  }

  ghost predicate Spared(path: seq<nat>, killed: seq<nat>) { forall i :: 0 <= i < |path| ==> path[i] !in killed }

  /** A patched slot that goes to its exit afterwards: its target was invalidated while its own block was not, or
      both are still valid and the unchaining gets to it. */
  ghost predicate Returns(owner: map<Slot, nat>, killed: seq<nat>, tb: nat, s: Slot) {
    OpenedBy(owner, killed, s) || (s in owner && owner[s] !in killed && Untouched(owner, killed, tb, s.tb))
  }

  lemma {:induction false} SparedJumps(owner: map<Slot, nat>, killed: seq<nat>, a: nat, b: nat)
    ensures JumpsTo(OwnerAfter(owner, killed), a, b) <==> JumpsTo(owner, a, b) && a !in killed && b !in killed
  {}

  /** What is left of the patches leads as far as untouched blocks do. */
  lemma {:induction false} LeadsAfter(owner: map<Slot, nat>, killed: seq<nat>, tb: nat, b: nat)
    requires b !in killed
    ensures Leads(OwnerAfter(owner, killed), tb, b) <==> Untouched(owner, killed, tb, b)
  {
    hide OwnerAfter, JumpsTo;
    var left := OwnerAfter(owner, killed);
    if Leads(left, tb, b) {
      var path :| Route(left, path, tb, b);
      forall i | 0 < i < |path| ensures JumpsTo(owner, path[i - 1], path[i]) {
        assert JumpsTo(left, path[i - 1], path[i]);
        SparedJumps(owner, killed, path[i - 1], path[i]);
      }
      forall i | 0 <= i < |path| ensures path[i] !in killed {
        if i + 1 < |path| {
          assert JumpsTo(left, path[(i + 1) - 1], path[i + 1]);
          SparedJumps(owner, killed, path[i], path[i + 1]);
        }
      }
      assert Route(owner, path, tb, b) && Spared(path, killed);
    }
    if Untouched(owner, killed, tb, b) {
      var path :| Route(owner, path, tb, b) && Spared(path, killed);
      forall i | 0 < i < |path| ensures JumpsTo(left, path[i - 1], path[i]) {
        assert JumpsTo(owner, path[i - 1], path[i]);
        SparedJumps(owner, killed, path[i - 1], path[i]);
      }
      assert Route(left, path, tb, b);
    }
  }

  /** The slot goes to its exit, or still to the block it was patched to. */
  ghost predicate StoppedAt(j: Jumps, g: Shape, j': Jumps, killed: seq<nat>, tb: nat, s: Slot) {
    && s in j.exits && s in j'.target && (s in g.owner ==> g.owner[s] < |j.tcPtr|)
    && j'.target[s] == if s !in g.owner || Returns(g.owner, killed, tb, s) then j.exits[s]
                       else j.tcPtr[g.owner[s]]
  }

  /** So does every slot of every block that was valid when the code was entered. */
  ghost predicate Stopped(j: Jumps, g: Shape, j': Jumps, killed: seq<nat>, tb: nat) {
    forall s: Slot :: s.tb in g.live && s.n < 2 ==> StoppedAt(j, g, j', killed, tb, s)
  }

  /** The slots of a valid block before the run. */
  lemma {:induction false} EnteredTargets(j: Jumps, g: Shape, s: Slot)
    requires Ok(j, g) && s.tb in g.live && s.n < 2
    ensures s in j.exits && s in j.target && (s in g.owner ==> g.owner[s] < |j.tcPtr|)
    ensures j.target[s] == if s in g.owner then j.tcPtr[g.owner[s]] else j.exits[s]
  {
    assert g.live + {} == g.live;
  }

  lemma {:induction false} StoppedSlot(j: Jumps, g: Shape, j1: Jumps, j2: Jumps, now: map<Slot, nat>, killed: seq<nat>,
                                       tb: nat, s: Slot)
    requires Ok(j, g) && s.tb in g.live && s.n < 2 && j1.exits == j.exits
    requires var mid := OwnerAfter(g.owner, killed);
             && Unchained(mid, now) && OpenedFrom(mid, now, tb) && Slot(tb, 0) !in now && Slot(tb, 1) !in now
             && TargetsAfter(j, j1, g.owner, killed) && TargetsFollow(j1, j2, mid, now)
    ensures StoppedAt(j, g, j2, killed, tb, s)
  {
    var mid := OwnerAfter(g.owner, killed);
    EnteredTargets(j, g, s);
    hide OkBut, Leads, OpenedFrom, Unchained, OpenedBy, Untouched;
    if s in mid {
      UnchainedExactly(mid, now, tb, s);
      LeadsAfter(g.owner, killed, tb, s.tb);
    } else if s in g.owner && s.tb in killed {
      NotUntouched(g.owner, killed, tb, s.tb);
    }
  }

  lemma {:induction false} NotUntouched(owner: map<Slot, nat>, killed: seq<nat>, tb: nat, b: nat)
    requires b in killed
    ensures !Untouched(owner, killed, tb, b)
  {
    forall path | Route(owner, path, tb, b) ensures !Spared(path, killed) {
      assert path[|path| - 1] == b;
    }
  }

  /** Blocks are invalidated while the code entered at tb runs, and then cpu_unlink_tb is called. */
  method Stop(c: JumpTables, tb: nat, killed: seq<nat>)
    requires c.Valid() && tb in c.g.live && NoDup(killed) && forall i :: 0 <= i < |killed| ==> killed[i] in c.g.live
    modifies c
    ensures c.Valid() && c.g.live == old(c.g.live) - Gone(killed)
    ensures c.j.tcPtr == old(c.j.tcPtr) && c.j.exits == old(c.j.exits)
    ensures Stopped(old(c.j), old(c.g), c.j, killed, tb)
    ensures forall s :: s in c.g.owner <==>
              s in OwnerAfter(old(c.g.owner), killed) && s.n < 2 && !Untouched(old(c.g.owner), killed, tb, s.tb)
  {
    hide OkBut, TargetsAfter, TargetsFollow, Unchained, OpenedFrom, Stopped, OwnerAfter, Untouched;
    ghost var (j, g) := (c.j, c.g);
    KnownBlock(j, g, tb);
    c.InvalidateAll(killed);
    ghost var (j1, mid) := (c.j, c.g.owner);
    OwnerDomain(j1, c.g, {});
    c.ResetRecursive(tb);
    StoppedAll(j, g, j1, c.j, c.g.owner, killed, tb);
    StillPatched(g.owner, c.g.owner, killed, tb);
  }

  lemma {:induction false} KnownBlock(j: Jumps, g: Shape, tb: nat)
    requires Ok(j, g) && tb in g.live
    ensures tb < |j.tcPtr|
  {
    assert tb in g.live + {};
  }

  lemma {:induction false} StillPatched(owner: map<Slot, nat>, now: map<Slot, nat>, killed: seq<nat>, tb: nat)
    requires var mid := OwnerAfter(owner, killed);
             && Unchained(mid, now) && OpenedFrom(mid, now, tb) && Slot(tb, 0) !in now && Slot(tb, 1) !in now
             && forall s :: s in mid ==> s.n < 2
    ensures forall s :: s in now <==>
              s in OwnerAfter(owner, killed) && s.n < 2 && !Untouched(owner, killed, tb, s.tb)
  {
    var mid := OwnerAfter(owner, killed);
    FewerOwners(mid, now);
    assert forall s :: s in mid ==> s.tb !in killed;
    hide Leads, OpenedFrom, Unchained, Untouched, OwnerAfter;
    forall s ensures s in now <==> s in mid && s.n < 2 && !Untouched(owner, killed, tb, s.tb) {
      if s in mid {
        UnchainedExactly(mid, now, tb, s);
        LeadsAfter(owner, killed, tb, s.tb);
      }
    }
  }

  lemma {:induction false} StoppedAll(j: Jumps, g: Shape, j1: Jumps, j2: Jumps, now: map<Slot, nat>, killed: seq<nat>,
                                      tb: nat)
    requires Ok(j, g) && j1.exits == j.exits
    requires var mid := OwnerAfter(g.owner, killed);
             && Unchained(mid, now) && OpenedFrom(mid, now, tb) && Slot(tb, 0) !in now && Slot(tb, 1) !in now
             && TargetsAfter(j, j1, g.owner, killed) && TargetsFollow(j1, j2, mid, now)
    ensures Stopped(j, g, j2, killed, tb)
  {
    hide OkBut, TargetsAfter, TargetsFollow, Unchained, OpenedFrom, OwnerAfter, StoppedAt;
    forall s: Slot | s.tb in g.live && s.n < 2 ensures StoppedAt(j, g, j2, killed, tb, s) {
      StoppedSlot(j, g, j1, j2, now, killed, tb, s);
    }
  }

  /** Which slots of the blocks the code ran through go to their exits. */
  lemma {:induction false} PathSlots(j: Jumps, g: Shape, j': Jumps, killed: seq<nat>, path: seq<nat>, i: nat, n: nat)
    requires Ok(j, g) && path != [] && path[0] in g.live && JumpPath(g.owner, path) && i < |path| && n < 2
    requires Stopped(j, g, j', killed, path[0])
    ensures var s := Slot(path[i], n);
            && s in j.exits && s in j'.target && (s in g.owner ==> g.owner[s] < |j.tcPtr|)
            && (j'.target[s] == j.exits[s] <==>
                  s !in g.owner || Returns(g.owner, killed, path[0], s) || j.tcPtr[g.owner[s]] == j.exits[s])
  {
    PathStaysLive(j, g, path);
    assert StoppedAt(j, g, j', killed, path[0], Slot(path[i], n));
    hide OkBut, JumpPath, Returns;
  }

  /** The code comes back from every block of its path when none of them was invalidated. */
  lemma {:induction false} PathReturns(j: Jumps, g: Shape, j': Jumps, killed: seq<nat>, path: seq<nat>, i: nat, n: nat)
    requires Ok(j, g) && path != [] && path[0] in g.live && JumpPath(g.owner, path) && i < |path| && n < 2
    requires Stopped(j, g, j', killed, path[0]) && Spared(path, killed)
    ensures var s := Slot(path[i], n); s in j.exits && s in j'.target && j'.target[s] == j.exits[s]
  {
    var (s, front) := (Slot(path[i], n), path[..i + 1]);
    PathSlots(j, g, j', killed, path, i, n);
    forall k | 0 < k < |front| ensures JumpsTo(g.owner, front[k - 1], front[k]) {
      assert JumpsTo(g.owner, path[k - 1], path[k]);
    }
    assert Route(g.owner, front, path[0], path[i]) && Spared(front, killed);
    if s in g.owner && g.owner[s] in killed { OpenedByTarget(g.owner, killed, s); }
    hide OkBut, JumpPath, Stopped;
  }

  lemma {:induction false} OpenedByTarget(owner: map<Slot, nat>, killed: seq<nat>, s: Slot)
    requires s in owner && owner[s] in killed && s.tb !in killed
    ensures OpenedBy(owner, killed, s)
  {
    var i :| 0 <= i < |killed| && killed[i] == owner[s];
  }

  // ----- code that does not come back

  /** A block that invalidates itself while it runs keeps its native jump through the unchaining: its code still goes
      straight to the old target. */
  method DeadJumpStays(a: int, b: int) returns (c: JumpTables)
    ensures c.Valid() && Slot(0, 0) !in c.g.owner && 0 !in c.g.live
    ensures Slot(0, 0) in c.j.target && c.j.tcPtr == [a, b] && c.j.target[Slot(0, 0)] == b
  {
    hide OkBut, Stopped;
    c := new JumpTables();
    var first := c.Link(a, 0, 0);
    var second := c.Link(b, 0, 0);
    assert c.j.tcPtr == [a, b] && c.g.owner == map[];
    c.AddJump(first, 0, second);
    ghost var (j, g) := (c.j, c.g);
    assert g.owner == map[Slot(0, 0) := 1];
    hide LinkBlock;
    Stop(c, first, [first]);
    StaysPatched(j, g, c.j, [0], 0, Slot(0, 0));
  }

  /** A slot of an invalidated block keeps its target while the target is valid. */
  lemma {:induction false} StaysPatched(j: Jumps, g: Shape, j': Jumps, killed: seq<nat>, tb: nat, s: Slot)
    requires Stopped(j, g, j', killed, tb) && s.tb in g.live && s.n < 2 && s in g.owner
    requires s.tb in killed && g.owner[s] !in killed
    ensures s in j'.target && g.owner[s] < |j.tcPtr| && j'.target[s] == j.tcPtr[g.owner[s]]
  {
    NotUntouched(g.owner, killed, tb, s.tb);
    hide Untouched, Stopped;
    NotOpened(j, g, j', killed, tb, s);
  }

  /** Nothing behind the first block is reached when every block it jumps to was invalidated. */
  lemma {:induction false} CutOff(owner: map<Slot, nat>, killed: seq<nat>, tb: nat, b: nat)
    requires tb != b && forall n :: 0 <= n < 2 && Slot(tb, n) in owner ==> owner[Slot(tb, n)] in killed
    ensures !Untouched(owner, killed, tb, b)
  {
    forall path | Route(owner, path, tb, b) ensures !Spared(path, killed) {
      assert JumpsTo(owner, path[1 - 1], path[1]);
      assert path[1] in killed;
    }
  }

  /** Block 0 jumps to block 1, block 1 to block 2, and block 2 to itself. Block 1 invalidates itself while it runs.
      The unchaining from block 0 finds nothing to reset: the code of block 1 goes on to block 2, which is valid and
      jumps to itself for good. */
  method LoopRunsOn(a: int, b: int, c: int) returns (t: JumpTables)
    ensures t.Valid() && t.j.tcPtr == [a, b, c] && 1 !in t.g.live && 2 in t.g.live
    ensures Slot(1, 0) in t.j.target && t.j.target[Slot(1, 0)] == c
    ensures Slot(2, 0) in t.j.target && t.j.target[Slot(2, 0)] == c && Slot(2, 0) in t.g.owner
  {
    hide OkBut, Stopped;
    t := ThreeBlocks(a, b, c);
    ghost var (j, g) := (t.j, t.g);
    hide Untouched;
    Stop(t, 0, [1]);
    StaysPatched(j, g, t.j, [1], 0, Slot(1, 0));
    CutOff(g.owner, [1], 0, 2);
    NotOpened(j, g, t.j, [1], 0, Slot(2, 0));
  }

  method ThreeBlocks(a: int, b: int, c: int) returns (t: JumpTables)
    ensures fresh(t) && t.Valid() && t.j.tcPtr == [a, b, c] && t.g.live == {0, 1, 2}
    ensures t.g.owner == map[Slot(0, 0) := 1, Slot(1, 0) := 2, Slot(2, 0) := 2]
  {
    hide OkBut;
    t := new JumpTables();
    var x := t.Link(a, 0, 0);
    var y := t.Link(b, 0, 0);
    var z := t.Link(c, 0, 0);
    assert t.j.tcPtr == [a, b, c] && t.g.owner == map[];
    hide LinkBlock;
    t.AddJump(x, 0, y);
    t.AddJump(y, 0, z);
    t.AddJump(z, 0, z);
  }

  /** A slot between valid blocks stays patched when the unchaining does not get to it. */
  lemma {:induction false} NotOpened(j: Jumps, g: Shape, j': Jumps, killed: seq<nat>, tb: nat, s: Slot)
    requires Stopped(j, g, j', killed, tb) && s.tb in g.live && s.n < 2 && s in g.owner
    requires g.owner[s] !in killed && !Untouched(g.owner, killed, tb, s.tb)
    ensures s in j'.target && g.owner[s] < |j.tcPtr| && j'.target[s] == j.tcPtr[g.owner[s]]
  {
    assert StoppedAt(j, g, j', killed, tb, s);
    hide Untouched;
  }
}
