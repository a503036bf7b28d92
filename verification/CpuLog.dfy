/**
 What the inner loop of cpu_exec does, as a record: interrupts, lookups, patches and runs
 (cpu-exec.c:331-657). A record is good when patches happen exactly where they are due.
 */
module CpuLog {

  datatype Requests = Requests(debug: bool, halt: bool, fiq: bool, hard: bool, exitTb: bool)

  const NoRequests := Requests(false, false, false, false, false)

  function Union(a: Requests, b: Requests): Requests {
    Requests(a.debug || b.debug, a.halt || b.halt, a.fiq || b.fiq, a.hard || b.hard, a.exitTb || b.exitTb)
  }

  datatype Masks = Masks(stepNoIrq: bool, fiqMasked: bool, hardMasked: bool, fiqExits: bool, hardExits: bool)

  datatype Event =
    | Serviced                                                  // do_interrupt was called
    | ExitTb                                                    // an EXITTB request was serviced
    | Left                                                      // cpu_loop_exit or a fault
    | Looked(tb: nat, slow: bool, flag: bool, onePage: bool)    // the invalidation flag after the lookup
    | Patched(tb: nat, n: nat, to: nat, live: bool)
    | Ran(tb: nat, tag: nat, live: bool)                        // live: tb is still valid as it leaves
    | Returned                                                  // the code left without naming a slot

  // ----- what an iteration does with the requests it finds

  /** The requests after single-stepping has masked the external ones. */
  function Seen(r: Requests, m: Masks): Requests { if m.stepNoIrq then r.(hard := false, fiq := false) else r }

  predicate Leaves(r: Requests) { r.debug || r.halt }

  predicate TakesFiq(r: Requests, m: Masks) { Seen(r, m).fiq && !m.fiqMasked }

  predicate TakesHard(r: Requests, m: Masks) { Seen(r, m).hard && !m.hardMasked }

  /** A pending EXITTB, or one that do_interrupt sets. */
  predicate TakesExitTb(r: Requests, m: Masks) {
    r.exitTb || (TakesFiq(r, m) && m.fiqExits) || (TakesHard(r, m) && m.hardExits)
  }

  ghost function Taken(r: Requests, m: Masks): seq<Event> {
    (if TakesFiq(r, m) then [Serviced] else []) + (if TakesHard(r, m) then [Serviced] else []) +
    (if TakesExitTb(r, m) then [ExitTb] else [])
  }

  ghost function Events(r: Requests, m: Masks): seq<Event> { if Leaves(r) then [Left] else Taken(r, m) }

  /** The requests that are still pending afterwards. */
  function Pending(r: Requests): Requests {
    if r.debug then r.(debug := false) else if r.halt then r.(halt := false) else r.(exitTb := false)
  }

  /** A patch at i is justified: its block ran last and left by that exit, with nothing serviced since;
      the lookup of its target left the flag clear; the target lies on one page. If the block was
      invalidated while it ran, the lookup must have gone the slow way, which clears the flag. */
  ghost predicate Justified(log: seq<Event>, i: nat)
    requires i < |log| && log[i].Patched?
  {
    var p := log[i];
    && i >= 2
    && log[i - 1].Looked? && log[i - 1].tb == p.to && !log[i - 1].flag && log[i - 1].onePage
    && log[i - 2] == Ran(p.tb, p.n, p.live) && p.n < 2
    && (p.live || log[i - 1].slow)
  }

  /** The lookup at i must be followed by a patch. */
  ghost predicate Due(log: seq<Event>, i: nat)
    requires i < |log|
  {
    i >= 1 && log[i].Looked? && !log[i].flag && log[i].onePage && log[i - 1].Ran? && log[i - 1].tag < 2
  }

  ghost predicate Answered(log: seq<Event>, i: nat)
    requires i < |log| && log[i].Looked?
  {
    i + 1 < |log| && log[i + 1].Patched? && log[i + 1].to == log[i].tb
  }

  /** Patches happen exactly where they are due. */
  ghost predicate LogOk(log: seq<Event>) {
    && (forall i :: 0 <= i < |log| && log[i].Patched? ==> Justified(log, i))
    && (forall i :: 0 <= i < |log| && Due(log, i) ==> Answered(log, i))
  }

  lemma {:induction false} LogOther(log: seq<Event>, e: Event)
    requires LogOk(log) && !e.Patched? && !Due(log + [e], |log|)
    ensures LogOk(log + [e])
  {
    var log' := log + [e];
    forall i | 0 <= i < |log'| && log'[i].Patched? ensures Justified(log', i) {
      assert Justified(log, i);
    }
    forall i | 0 <= i < |log'| && Due(log', i) ensures Answered(log', i) {
      assert Due(log, i) && Answered(log, i);
    }
  }

  lemma {:induction false} LogPatch(log: seq<Event>, looked: Event, patch: Event)
    requires LogOk(log) && looked.Looked? && patch.Patched? && Justified(log + [looked, patch], |log| + 1)
    ensures LogOk(log + [looked, patch])
  {
    var log' := log + [looked, patch];
    forall i | 0 <= i < |log'| && log'[i].Patched? ensures Justified(log', i) {
      if i < |log| { assert Justified(log, i); }
    }
    forall i | 0 <= i < |log'| && Due(log', i) ensures Answered(log', i) {
      if i < |log| { assert Due(log, i) && Answered(log, i); }
    }
  }

  /** A block is invalidated and then patched, so it is not live when it is patched. */
  ghost predicate PatchedDead(log: seq<Event>) {
    exists i :: 0 <= i < |log| && log[i].Patched? && !log[i].live
  }

  /** A slow lookup that left the flag clear and found a target on one page, right after a block left by exit 0 or 1
      no longer valid. */
  ghost predicate DeadPatchAt(log: seq<Event>, i: nat)
    requires i < |log|
  {
    && i > 0 && log[i].Looked? && log[i].slow && !log[i].flag && log[i].onePage
    && log[i - 1].Ran? && log[i - 1].tag < 2 && !log[i - 1].live
  }

  /** The exact condition for an invalidated block being patched. */
  lemma {:induction false} DeadPatchExactly(log: seq<Event>)
    requires LogOk(log)
    ensures PatchedDead(log) <==> exists i :: 0 <= i < |log| && DeadPatchAt(log, i)
  {
    if PatchedDead(log) {
      var i :| 0 <= i < |log| && log[i].Patched? && !log[i].live;
      assert Justified(log, i);
      assert DeadPatchAt(log, i - 1);
    }
    if i :| 0 <= i < |log| && DeadPatchAt(log, i) {
      assert Due(log, i) && Answered(log, i);
      assert Justified(log, i + 1);
      assert log[i + 1].Patched? && !log[i + 1].live;
    }
  }

  /** Without requests the interrupt part does nothing. */
  lemma {:induction false} Quiet(m: Masks)
    ensures Events(NoRequests, m) == [] && Pending(NoRequests) == NoRequests && !Leaves(NoRequests)
    ensures forall r: Requests :: Union(r, NoRequests) == r
  {}

  /** The log goes on with a lookup of tb. */
  ghost predicate Extends(before: seq<Event>, log: seq<Event>, tb: nat, onePage: bool) {
    && |before| < |log| && log[..|before|] == before
    && log[|before|].Looked? && log[|before|].tb == tb && log[|before|].onePage == onePage
  }

  /** The last event is a patch of a block that is no longer valid. */
  predicate DeadPatchLast(log: seq<Event>) { log != [] && log[|log| - 1].Patched? && !log[|log| - 1].live }

  lemma {:induction false} DeadPatchLasts(log: seq<Event>)
    requires DeadPatchLast(log)
    ensures PatchedDead(log)
  {
    assert log[|log| - 1].Patched?;
  }
}
