/**
 The hash functions of the block tables (exec-all.h:173-191, cpu-defs.h:66-75) and the page
 arithmetic of the ARM target, whose pages have 2^10 bytes (target-arm/cpu.h:400).
 Addresses are 32-bit words.
 */
module TbHash {

  function PageOf(a: bv32): bv32 { a & 0xfffffc00 }

  function Offset(a: bv32): bv32 { a & 0x3ff }

  /** The page after the one that holds a, wrapping at the end of the address space. */
  function NextPage(a: bv32): bv32 { PageOf(a) + 0x400 }

  /** What page_addr[1] holds in a block that lies on one page: -1. */
  const NoPage: bv32 := 0xffffffff

  function CacheHash(pc: bv32): bv32 {
    var tmp := pc ^ (pc >> 4);
    ((tmp >> 4) & 0xfc0) | (tmp & 0x3f)
  }

  function HashPage(pc: bv32): bv32 {
    var tmp := pc ^ (pc >> 4);
    (tmp >> 4) & 0xfc0
  }

  function PhysHash(pc: bv32): bv15 { (pc & 0x7fff) as bv15 }

  // Where the tables keep an entry.

  function CacheSlot(pc: bv32): nat { CacheHash(pc) as nat }

  function WindowStart(page: bv32): nat { HashPage(page) as nat }

  function Bucket(phys: bv32): nat { PhysHash(phys) as nat }

  // The two halves of the jump-cache hash.

  function High(pc: bv32): bv6 { (((pc ^ (pc >> 4)) >> 10) & 0x3f) as bv6 }

  function Low(pc: bv32): bv6 { ((pc ^ (pc >> 4)) & 0x3f) as bv6 }

  lemma {:induction false} CacheHashHalves(pc: bv32)
    ensures CacheHash(pc) == (High(pc) as bv32 << 6) | (Low(pc) as bv32)
  {}

  lemma {:induction false} HashPageHalf(pc: bv32)
    ensures HashPage(pc) == High(pc) as bv32 << 6
  {}

  lemma {:induction false} HighOfPage(pc: bv32)
    ensures High(PageOf(pc)) == High(pc)
  {}

  lemma {:induction false} JoinedHalves(a: bv6, b: bv6)
    ensures ((a as bv32 << 6) | (b as bv32)) as nat == (a as nat) * 64 + b as nat
  {}

  lemma {:induction false} ShiftedHalf(a: bv6)
    ensures (a as bv32 << 6) as nat == (a as nat) * 64
  {}

  lemma {:induction false} HalfRange(a: bv6)
    ensures a as nat < 64
  {}

  lemma {:induction false} CacheSlotIs(pc: bv32)
    ensures CacheSlot(pc) == (High(pc) as nat) * 64 + Low(pc) as nat
  {
    CacheHashHalves(pc);
    JoinedHalves(High(pc), Low(pc));
    hide CacheHash, High, Low;
  }

  lemma {:induction false} WindowStartIs(page: bv32)
    ensures WindowStart(page) == (High(page) as nat) * 64
  {
    HashPageHalf(page);
    ShiftedHalf(High(page));
    hide HashPage, High;
  }

  lemma {:induction false} SameHigh(pc: bv32, page: bv32)
    requires PageOf(pc) == PageOf(page)
    ensures High(pc) == High(page)
  {
    HighOfPage(pc);
    HighOfPage(page);
    hide High, PageOf;
  }

  /** All the addresses of a page hash into the 64 slots that start at the page's own hash. */
  lemma {:induction false} HashWindow(pc: bv32, page: bv32)
    requires PageOf(pc) == PageOf(page)
    ensures WindowStart(page) <= CacheSlot(pc) < WindowStart(page) + 64 <= 4096
  {
    CacheSlotIs(pc);
    WindowStartIs(page);
    SameHigh(pc, page);
    HalfRange(High(pc));
    HalfRange(Low(pc));
    hide CacheSlot, WindowStart, High, Low, PageOf;
  }

  lemma {:induction false} BucketRange(phys: bv32)
    ensures Bucket(phys) < 0x8000
  {}

  // ----- page arithmetic

  /** The address at an offset into a page. */
  function InPage(page: bv32, offset: bv32): bv32 { page + offset }

  lemma {:induction false} PageOfInPage(page: bv32, a: bv32)
    ensures PageOf(InPage(PageOf(page), Offset(a))) == PageOf(page)
  {}

  lemma {:induction false} PageIsNotNoPage(a: bv32)
    ensures PageOf(a) != NoPage
  {}

  lemma {:induction false} PageStart(page: bv32)
    ensures InPage(page, 0) == page
  {}

  lemma {:induction false} PageAligned(page: bv32)
    ensures Offset(PageOf(page)) == 0
  {}

  lemma {:induction false} NextPageAligned(a: bv32)
    ensures PageOf(NextPage(a)) == NextPage(a) && Offset(NextPage(a)) == 0
  {}

  lemma {:induction false} NextPageIs(a: bv32, page: bv32)
    requires NextPage(a) == PageOf(page)
    ensures PageOf(a) == PageOf(page - 0x400)
  {}

  lemma {:induction false} FirstByte(a: bv32)
    ensures LastOf(a, 0) == a
  {}

  /** The address of the last byte of a block of extent + 1 bytes. */
  function LastOf(pc: bv32, extent: bv32): bv32 { pc + extent }

  lemma {:induction false} Carry(a: bv32, e: bv32)
    requires e < 0x400
    ensures (a + e) & 0xfffffc00 == a & 0xfffffc00 || (a + e) & 0xfffffc00 == (a & 0xfffffc00) + 0x400
  {}

  lemma {:induction false} LastPageIs(pc: bv32, e: bv32)
    ensures PageOf(LastOf(pc, e)) == (pc + e) & 0xfffffc00
  {}

  lemma {:induction false} PagesAre(pc: bv32)
    ensures PageOf(pc) == pc & 0xfffffc00 && NextPage(pc) == (pc & 0xfffffc00) + 0x400
  {}

  /** A block of at most a page of code ends on its first page or on the next one. */
  lemma {:induction false} LastByte(pc: bv32, extent: bv32)
    requires extent < 0x400
    ensures PageOf(LastOf(pc, extent)) == PageOf(pc) || PageOf(LastOf(pc, extent)) == NextPage(pc)
  {
    Carry(pc, extent);
    LastPageIs(pc, extent);
    PagesAre(pc);
    hide PageOf, NextPage, LastOf;
  }
}
