/**
 The instruction budget: the check that opens every block (gen-icount.h:6-32), the refill or
 the end of a run when it fails (cpu-exec.c:98-121, cpu-exec.c:630-656), the rollback after a
 fault (translate-all.c:187-214, exec.c:3644-3688) and the accounting around a run
 (vl-android.c:4318-4353).

 The generated code is a contract: the block found at a guest position has a natural length,
 and a block generated with a limit has the smaller of the two.
 */
module TbIcount {
  import opened Common

  /** CF_COUNT_MASK. */
  const CountMask := 0x7fff

  /** The 32-bit word whose halves are high and low, read as a signed number. */
  function SignedWord(high: nat, low: nat): int {
    var u := high * 0x10000 + low;
    if u >= 0x8000_0000 then u - 0x1_0000_0000 else u
  }

  /** The length limit of cpu_exec_nocache. */
  function Clamped(n: nat): nat { if n > CountMask then CountMask else n }

  /** Instructions that cover a time span, rounded up. */
  function Budget(span: nat, scale: nat): nat
    requires scale > 0
  {
    (span + scale - 1) / scale
  }

  /** The budget reaches the deadline and stops within one instruction of it. */
  lemma {:induction false} BudgetReaches(span: nat, scale: nat)
    requires scale > 0
    ensures span <= Budget(span, scale) * scale < span + scale
  {
    var x := span + scale - 1;
    assert x == scale * (x / scale) + x % scale;
  }

  class Counter {
    var low: nat                 // icount_decr.u16.low
    var high: nat                // icount_decr.u16.high
    var extra: int               // icount_extra
    var icount: int              // qemu_icount
    var executed: nat            // guest instructions executed so far

    /** Instructions left of the budget. */
    function Left(): int
      reads this
    {
      low + extra
    }

    /** The instruction clock (cpu_get_icount). */
    function Clock(): int
      reads this
    {
      icount - (low + extra)
    }

    /** Nothing is negative or out of its width, and the clock has counted every instruction. */
    ghost predicate Valid()
      reads this
    {
      low <= 0xffff && (high == 0 || high == 0xffff) && extra >= 0 && Clock() == executed
    }

    constructor ()
      ensures Valid() && Left() == 0 && executed == 0 && high == 0
    {
      low, high, extra, icount, executed := 0, 0, 0, 0, 0;
    }

    /** The check at the start of a block of n instructions, and the block if it passes. */
    method Block(n: nat) returns (expired: bool)
      requires Valid() && n <= CountMask
      modifies this`low, this`executed
      ensures Valid() && (expired <==> high == 0xffff || old(low) < n)
      ensures expired ==> low == old(low) && executed == old(executed)
      ensures !expired ==> Left() == old(Left()) - n && executed == old(executed) + n
    {
      var count := SignedWord(high, low) - n;
      expired := count < 0;
      if !expired {
        low := count % 0x10000;
        executed := executed + n;
      }
    }

    /** cpu_restore_state for a fault after j instructions of a block of n, all n of them counted:
        the 16-bit counter takes back those that did not run. */
    method Restore(n: nat, j: nat)
      requires low + n <= 0xffff && j <= n
      modifies this`low
      ensures low == old(low) + n - j
    {
      low := (low + n) % 0x10000;
      low := (low - j) % 0x10000;
    }

    /** A block of n instructions that faults after j of them. */
    method FaultingBlock(n: nat, j: nat) returns (expired: bool)
      requires Valid() && j < n <= CountMask
      modifies this`low, this`executed
      ensures Valid() && (expired <==> high == 0xffff || old(low) < n)
      ensures expired ==> low == old(low) && executed == old(executed)
      ensures !expired ==> Left() == old(Left()) - j && executed == old(executed) + j
    {
      var count := SignedWord(high, low) - n;
      expired := count < 0;
      if !expired {
        low := count % 0x10000;
        executed := executed + j;
        Restore(n, j);
      }
    }

    /** cpu_io_recompile, called from instruction j of a block of n: the replacement block ends with
        that instruction and is never too long. */
    method IoRecompile(n: nat, j: nat) returns (length: nat)
      requires low + n <= 0xffff && j < n <= CountMask
      modifies this`low
      ensures low == old(low) + n - j && length == j + 1 <= CountMask
    {
      var m := low + n;
      Restore(n, j);
      m := m - low;
      length := m + 1;
    }

    /** cpu_interrupt under instruction counting. */
    method Interrupt()
      requires Valid()
      modifies this`high
      ensures Valid() && high == 0xffff
    {
      high := 0xffff;
    }

    /** The refill keeps the sum and moves as much as fits into the low half. */
    method Refill(insnsLeft: nat)
      requires Valid() && high == 0 && insnsLeft == low
      modifies this`low, this`extra
      ensures Valid() && Left() == old(Left()) && low == Min(old(Left()), 0xffff)
    {
      extra := extra + insnsLeft;
      var n := if extra > 0xffff then 0xffff else extra;
      extra := extra - n;
      low := n;
    }

    /** cpu_exec_nocache for a block of the given natural length. The one-use block may fault after some of its
        instructions, and then the call does not return. */
    method NoCache(maxCycles: nat, natural: nat, irq: bool, fault: nat) returns (faulted: bool)
      requires Valid() && 1 <= natural <= CountMask && 0 < maxCycles == low < natural
      modifies this
      ensures Valid() && extra == old(extra) && icount == old(icount) && Clamped(maxCycles) == maxCycles
      ensures executed - old(executed) == old(Left()) - Left() >= 0
      ensures high == if irq then 0xffff else old(high)
      ensures faulted <==> high == 0 && fault < maxCycles
      ensures high == 0 && !faulted ==> low == 0 && executed == old(executed) + old(low)
      ensures faulted ==> executed == old(executed) + fault
    {
      var max := Clamped(maxCycles);
      if irq { Interrupt(); }
      var n := Min(natural, max);
      var expired;
      if fault < n {
        expired := FaultingBlock(n, fault);
      } else {
        expired := Block(n);
      }
      faulted := !expired && fault < n;
    }

    /** The handling of a tag-2 exit: refill and go on, or finish the budget and leave the loop. A fault in the
        one-use block goes on with what is left. */
    method Expired(natural: nat, irq: bool, fault: nat) returns (leave: bool)
      requires Valid() && 1 <= natural <= CountMask && (high == 0xffff || low < natural)
      modifies this
      ensures Valid() && icount == old(icount) && executed - old(executed) == old(Left()) - Left() >= 0
      ensures !leave ==> old(high) == high == 0 && (fault >= old(low) ==>
                                                    executed == old(executed) && 0 <= extra < old(extra))
      ensures leave && high == 0 ==> Left() == 0
    {
      var insnsLeft := SignedWord(high, low);
      if extra != 0 && insnsLeft >= 0 {
        Refill(insnsLeft);
        leave := false;
      } else {
        leave := true;
        if insnsLeft > 0 {
          var faulted := NoCache(insnsLeft, natural, irq, fault);
          leave := !faulted;
        }
      }
    }

    /** The loop of cpu_exec over a run: natural gives the length of the block found at each step, irq and exit what
        arrives at each step, and faults how far the block of each early step gets. A run that ends by expiry
        uninterrupted spends its budget exactly. */
    method CpuExec(natural: nat -> nat, irq: nat -> bool, exit: nat -> bool, faults: seq<nat>) returns (byExpiry: bool)
      requires Valid() && forall p :: 1 <= natural(p) <= CountMask
      modifies this
      ensures Valid() && icount == old(icount)
      ensures executed >= old(executed) && Left() == old(Left()) - (executed - old(executed))
      ensures byExpiry && high == 0 ==> Left() == 0 && executed == old(executed) + old(Left())
    {
      var step := 0;
      byExpiry := false;
      while !byExpiry
        invariant Valid() && icount == old(icount) && executed >= old(executed)
        invariant Left() + executed == old(Left()) + old(executed)
        invariant byExpiry && high == 0 ==> Left() == 0
        decreases !byExpiry, if step < |faults| then |faults| - step else 0, Left(), extra
      {
        if exit(step) { return; }
        var n := natural(step);
        assert 1 <= n <= CountMask;
        var fault := if step < |faults| then faults[step] else CountMask;
        var expired;
        if fault < n {
          expired := FaultingBlock(n, fault);
        } else {
          expired := Block(n);
        }
        if expired {
          byExpiry := Expired(n, irq(step), fault);
        } else if irq(step) {
          Interrupt();
        }
        step := step + 1;
      }
    }

    /** qemu_cpu_exec: the budget is the time to the next deadline, and what is not used is folded back. */
    method QemuCpuExec(deadline: nat, scale: nat, natural: nat -> nat, irq: nat -> bool, exit: nat -> bool,
                       faults: seq<nat>)
        returns (byExpiry: bool, interrupted: bool)
      requires Valid() && scale > 0 && forall p :: 1 <= natural(p) <= CountMask
      modifies this
      ensures Valid() && Left() == 0 && high == 0 && icount == executed
      ensures old(executed) <= executed <= old(executed) + Budget(deadline, scale)
      ensures byExpiry && !interrupted ==> executed == old(executed) + Budget(deadline, scale)
    {
      Charge(deadline, scale);
      byExpiry := CpuExec(natural, irq, exit, faults);
      interrupted := high != 0;
      Settle();
    }

    /** The accounting before a run. */
    method Charge(deadline: nat, scale: nat)
      requires Valid() && scale > 0
      modifies this`low, this`extra, this`icount
      ensures Valid() && Left() == Budget(deadline, scale)
    {
      icount := icount - (low + extra);
      low, extra := 0, 0;
      var count := (deadline + scale - 1) / scale;
      icount := icount + count;
      var decr := if count > 0xffff then 0xffff else count;
      count := count - decr;
      low, extra := decr, count;
    }

    /** The accounting after it: what is left is folded back. */
    method Settle()
      requires Valid()
      modifies this`low, this`high, this`extra, this`icount
      ensures Valid() && Left() == 0 && high == 0 && icount == executed
    {
      icount := icount - (low + extra);
      low, high, extra := 0, 0, 0;
    }
  }
}
