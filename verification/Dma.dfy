/**
 Scatter-gather transfers (dma-helpers.c:13-131): a callback-driven machine that maps guest
 memory piece by piece, submits what it could map, and starts again when the submission
 completes or when memory can be mapped again.

 How much of a mapping request succeeds and how submissions complete are inputs. Submissions
 are accepted, and the first batch maps something.
 */
module Dma {

  /** A stretch of guest memory. */
  datatype Piece = Piece(base: int, len: nat)

  datatype Submission = Submission(sector: int, pieces: seq<Piece>)

  // ----- the bytes of a list, as addresses in order

  ghost function Range(base: int, n: nat): seq<int> { seq(n, i => base + i) }

  ghost function Addresses(pieces: seq<Piece>): seq<int> {
    if pieces == [] then [] else Range(pieces[0].base, pieces[0].len) + Addresses(pieces[1..])
  }

  function Size(pieces: seq<Piece>): nat { if pieces == [] then 0 else pieces[0].len + Size(pieces[1..]) }

  ghost function Then(a: seq<int>, b: seq<int>): seq<int> { a + b }

  lemma {:induction false} Regroup(a: seq<int>, b: seq<int>, c: seq<int>)
    ensures Then(Then(a, b), c) == Then(a, Then(b, c))
  {}

  /** Everything that was submitted. */
  ghost function Pieces(subs: seq<Submission>): seq<Piece> {
    if subs == [] then [] else Pieces(subs[..|subs| - 1]) + subs[|subs| - 1].pieces
  }

  /** What is still to be transferred, from byte of entry index on. */
  ghost function Remaining(sg: seq<Piece>, index: nat, at: nat): seq<int>
    requires index <= |sg| && (index < |sg| ==> at <= sg[index].len)
  {
    if index == |sg| then [] else Range(sg[index].base + at, sg[index].len - at) + Addresses(sg[index + 1..])
  }

  lemma {:induction false} AddressesConcat(a: seq<Piece>, b: seq<Piece>)
    ensures Addresses(a + b) == Then(Addresses(a), Addresses(b))
  {
    if a == [] {
      assert a + b == b;
    } else {
      assert (a + b)[1..] == a[1..] + b;
      AddressesConcat(a[1..], b);
    }
  }

  lemma {:induction false} AddressesOne(p: Piece)
    ensures Addresses([p]) == Range(p.base, p.len)
  {
    assert [p][1..] == [];
  }

  lemma {:induction false} SizeConcat(a: seq<Piece>, b: seq<Piece>)
    ensures Size(a + b) == Size(a) + Size(b)
  {
    if a == [] {
      assert a + b == b;
    } else {
      assert (a + b)[1..] == a[1..] + b;
      SizeConcat(a[1..], b);
    }
  }

  lemma {:induction false} SizeCounts(pieces: seq<Piece>)
    ensures |Addresses(pieces)| == Size(pieces)
  {
    if pieces != [] { SizeCounts(pieces[1..]); }
  }

  lemma {:induction false} RangeSplit(base: int, a: nat, b: nat)
    ensures Range(base, a + b) == Range(base, a) + Range(base + a, b)
  {}

  /** The place in the list after len more bytes of the current entry. */
  function Advanced(sg: seq<Piece>, index: nat, at: nat, len: nat): (nat, nat)
    requires index < |sg|
  {
    if at + len == sg[index].len then (index + 1, 0) else (index, at + len)
  }

  /** Mapping the next len bytes of the current entry moves them from the front of what remains. */
  lemma {:induction false} MapStep(sg: seq<Piece>, index: nat, at: nat, len: nat)
    requires index < |sg| && at + len <= sg[index].len
    ensures var next := Advanced(sg, index, at, len);
            Remaining(sg, index, at) == Then(Range(sg[index].base + at, len), Remaining(sg, next.0, next.1))
  {
    RangeSplit(sg[index].base + at, len, sg[index].len - at - len);
    if at + len == sg[index].len {
      assert Range(sg[index].base + at + len, 0) == [];
      RemainingFresh(sg, index + 1);
    }
  }

  predicate Within(sg: seq<Piece>, index: nat, at: nat) { index <= |sg| && (index < |sg| ==> at <= sg[index].len) }

  /** The pieces followed by what remains are all the bytes. */
  ghost predicate Covers(pieces: seq<Piece>, sg: seq<Piece>, index: nat, at: nat, all: seq<int>) {
    Within(sg, index, at) && Then(Addresses(pieces), Remaining(sg, index, at)) == all
  }

  /** How many bytes remain. */
  ghost function Left(sg: seq<Piece>, index: nat, at: nat): nat
    requires Within(sg, index, at)
  {
    |Remaining(sg, index, at)|
  }

  /** cpu_physical_memory_map gives at most what it was asked for. */
  function Mapped(room: nat, asked: nat): nat { if room < asked then room else asked }

  lemma {:induction false} AdvancedWithin(sg: seq<Piece>, index: nat, at: nat, len: nat)
    requires index < |sg| && at + len <= sg[index].len
    ensures var next := Advanced(sg, index, at, len); Within(sg, next.0, next.1)
  {
    if index + 1 < |sg| { assert 0 <= sg[index + 1].len; }
  }

  lemma {:induction false} NothingMapped(sg: seq<Piece>, index: nat, at: nat)
    requires Within(sg, index, at)
    ensures Covers([], sg, index, at, Remaining(sg, index, at)) && Size([]) == 0
  {}

  /** Fewer bytes remain after a step that maps some. */
  lemma {:induction false} LeftShrinks(sg: seq<Piece>, index: nat, at: nat, len: nat)
    requires index < |sg| && at + len <= sg[index].len
    ensures var next := Advanced(sg, index, at, len);
            Within(sg, next.0, next.1) && Left(sg, next.0, next.1) + len == Left(sg, index, at)
  {
    var next := Advanced(sg, index, at, len);
    AdvancedWithin(sg, index, at, len);
    MapStep(sg, index, at, len);
    assert |Range(sg[index].base + at, len)| == len;
    hide Remaining, Advanced, Range;
  }

  /** One more piece in the vector. */
  lemma {:induction false} MapMore(sg: seq<Piece>, index: nat, at: nat, len: nat, iov: seq<Piece>, all: seq<int>)
    requires index < |sg| && at + len <= sg[index].len && Covers(iov, sg, index, at, all)
    ensures var next := Advanced(sg, index, at, len);
            Covers(iov + [Piece(sg[index].base + at, len)], sg, next.0, next.1, all)
  {
    hide Addresses, Remaining, Range, Advanced, Then;
    var p := Piece(sg[index].base + at, len);
    var next := Advanced(sg, index, at, len);
    AdvancedWithin(sg, index, at, len);
    MapStep(sg, index, at, len);
    AddressesOne(p);
    AddressesConcat(iov, [p]);
    Regroup(Addresses(iov), Addresses([p]), Remaining(sg, next.0, next.1));
  }

  lemma {:induction false} SizeMore(iov: seq<Piece>, p: Piece)
    ensures Size(iov + [p]) == Size(iov) + p.len
  {
    SizeConcat(iov, [p]);
    assert [p][1..] == [];
  }

  lemma {:induction false} RemainingFresh(sg: seq<Piece>, index: nat)
    requires index <= |sg|
    ensures Remaining(sg, index, 0) == Addresses(sg[index..])
  {
    if index < |sg| { assert sg[index..][1..] == sg[index + 1..]; }
  }

  /** Submissions start where the one before ended: each is Size / 512 sectors after the last. */
  ghost predicate Consecutive(subs: seq<Submission>, start: int) {
    && (|subs| > 0 ==> subs[0].sector == start)
    && forall i :: 0 < i < |subs| ==> subs[i].sector == subs[i - 1].sector + Size(subs[i - 1].pieces) / 512
  }

  ghost predicate WholeSectors(subs: seq<Submission>) {
    forall i :: 0 <= i < |subs| ==> Size(subs[i].pieces) % 512 == 0
  }

  /** A submission's sector is its place in the byte stream exactly when every batch before it was whole
      sectors; otherwise it lags behind. */
  lemma {:induction false} SectorIsPlace(subs: seq<Submission>, start: int, i: nat)
    requires Consecutive(subs, start) && i < |subs|
    ensures (subs[i].sector - start) * 512 <= |Addresses(Pieces(subs[..i]))|
    ensures (subs[i].sector - start) * 512 == |Addresses(Pieces(subs[..i]))| <==> WholeSectors(subs[..i])
  {
    if i == 0 {
      assert subs[..0] == [];
    } else {
      var (front, last) := (subs[..i - 1], subs[i - 1]);
      SectorIsPlace(subs, start, i - 1);
      assert subs[..i] == front + [last];
      PiecesMore(front, last);
      AddressesConcat(Pieces(front), last.pieces);
      SizeCounts(last.pieces);
      WholeMore(front, last);
      hide Addresses, Pieces, WholeSectors, Size;
      assert |Addresses(Pieces(subs[..i]))| == |Addresses(Pieces(front))| + Size(last.pieces);
    }
  }

  lemma {:induction false} WholeMore(subs: seq<Submission>, s: Submission)
    ensures WholeSectors(subs + [s]) <==> WholeSectors(subs) && Size(s.pieces) % 512 == 0
  {
    if WholeSectors(subs + [s]) {
      assert (subs + [s])[|subs|] == s;
      forall i | 0 <= i < |subs| ensures Size(subs[i].pieces) % 512 == 0 { assert (subs + [s])[i] == subs[i]; }
    }
  }

  lemma {:induction false} PiecesMore(subs: seq<Submission>, s: Submission)
    ensures Pieces(subs + [s]) == Pieces(subs) + s.pieces
  {
    assert (subs + [s])[..|subs|] == subs;
  }

  /** Every entry behind the place is non-empty, and the place is inside its entry unless that entry is empty. */
  ghost predicate Settled(sg: seq<Piece>, index: nat, at: nat) {
    && index <= |sg| && (forall i :: 0 <= i < index ==> sg[i].len > 0)
    && (index < |sg| ==> if sg[index].len > 0 then at < sg[index].len else at == 0)
  }

  lemma {:induction false} SettledWithin(sg: seq<Piece>, index: nat, at: nat)
    requires Settled(sg, index, at)
    ensures Within(sg, index, at)
  {}

  lemma {:induction false} AdvancedSettled(sg: seq<Piece>, index: nat, at: nat, len: nat)
    requires Settled(sg, index, at) && index < |sg| && 0 < len && at + len <= sg[index].len
    ensures var next := Advanced(sg, index, at, len); Settled(sg, next.0, next.1)
  {}

  /** What the mapping loop comes to: the place it reaches, the pieces it maps and the calls it has made. */
  datatype Batch = Batch(index: nat, at: nat, iov: seq<Piece>, calls: nat)

  ghost function MapFrom(sg: seq<Piece>, index: nat, at: nat, iov: seq<Piece>, maps: nat -> nat, calls: nat): Batch
    requires Within(sg, index, at)
    decreases Left(sg, index, at)
  {
    if index == |sg| then Batch(index, at, iov, calls)
    else
      var len := Mapped(maps(calls), sg[index].len - at);
      if len == 0 then Batch(index, at, iov, calls + 1)
      else
        LeftShrinks(sg, index, at, len);
        var next := Advanced(sg, index, at, len);
        MapFrom(sg, next.0, next.1, iov + [Piece(sg[index].base + at, len)], maps, calls + 1)
  }

  /** The mapping loop of dma_bdrv_cb. */
  method MapBatch(sg: seq<Piece>, index0: nat, at0: nat, maps: nat -> nat, calls0: nat)
      returns (index: nat, at: nat, iov: seq<Piece>, calls: nat)
    requires index0 < |sg| && Settled(sg, index0, at0)
    ensures Within(sg, index0, at0) && Settled(sg, index, at) && Within(sg, index, at)
    ensures Batch(index, at, iov, calls) == MapFrom(sg, index0, at0, [], maps, calls0)
    ensures Covers(iov, sg, index, at, Remaining(sg, index0, at0))
    ensures iov == [] ==> index == index0 && at == at0 && calls == calls0 + 1
    ensures Size(iov) == 0 <==> iov == []
    ensures iov == [] <==> Mapped(maps(calls0), sg[index0].len - at0) == 0
    ensures iov != [] ==> Left(sg, index, at) < Left(sg, index0, at0)
  {
    index, at, iov, calls := index0, at0, [], calls0;
    SettledWithin(sg, index, at);
    ghost var all := Remaining(sg, index, at);
    ghost var batch := MapFrom(sg, index0, at0, [], maps, calls0);
    NothingMapped(sg, index, at);
    while index < |sg|
      invariant Within(sg, index, at) && Covers(iov, sg, index, at, all) && Settled(sg, index, at)
      invariant (Size(iov) == 0 <==> iov == []) && (iov == [] ==> index == index0 && at == at0 && calls == calls0)
      invariant MapFrom(sg, index, at, iov, maps, calls) == batch
      invariant iov != [] ==> Mapped(maps(calls0), sg[index0].len - at0) > 0
      invariant if iov == [] then true else Left(sg, index, at) < Left(sg, index0, at0)
      decreases Left(sg, index, at)
    {
      MapFromStep(sg, index, at, iov, maps, calls);
      hide Covers, Size, Remaining, Addresses, Advanced, Mapped, Left, MapFrom, Settled;
      var len := Mapped(maps(calls), sg[index].len - at);
      calls := calls + 1;
      if len == 0 { break; }
      MappedFits(maps(calls - 1), sg[index].len - at);
      MapMore(sg, index, at, len, iov, all);
      LeftShrinks(sg, index, at, len);
      AdvancedSettled(sg, index, at, len);
      SizeMore(iov, Piece(sg[index].base + at, len));
      iov := iov + [Piece(sg[index].base + at, len)];
      var next := Advanced(sg, index, at, len);
      index, at := next.0, next.1;
    }
  }

  lemma {:induction false} MappedFits(room: nat, asked: nat)
    ensures Mapped(room, asked) <= asked
  {}

  /** One turn of the mapping loop. */
  lemma {:induction false} MapFromStep(sg: seq<Piece>, index: nat, at: nat, iov: seq<Piece>, maps: nat -> nat,
                                       calls: nat)
    requires Within(sg, index, at) && index < |sg|
    ensures var len := Mapped(maps(calls), sg[index].len - at);
            if len == 0 then MapFrom(sg, index, at, iov, maps, calls) == Batch(index, at, iov, calls + 1)
            else
              var next := Advanced(sg, index, at, len);
              Within(sg, next.0, next.1) &&
              MapFrom(sg, index, at, iov, maps, calls)
              == MapFrom(sg, next.0, next.1, iov + [Piece(sg[index].base + at, len)], maps, calls + 1)
  {
    var len := Mapped(maps(calls), sg[index].len - at);
    if len > 0 { LeftShrinks(sg, index, at, len); }
    hide Remaining, Advanced, Mapped;
  }

  datatype Phase = InFlight | Waiting | Scheduled | Done

  /** The control block. */
  datatype Control = Control(
    sector: int,                 // sector_num
    index: nat,                  // sg_cur_index
    at: nat,                     // sg_cur_byte
    iov: seq<Piece>,
    phase: Phase)

  /** What was submitted followed by what remains is the whole list, in order, at consecutive sectors. */
  ghost predicate Progress(sg: seq<Piece>, start: int, s: Control, subs: seq<Submission>) {
    && Covers(Pieces(subs), sg, s.index, s.at, Addresses(sg))
    && Consecutive(subs, start) && s.sector + Size(s.iov) / 512 == NextSector(subs, start)
  }

  /** A request is in flight exactly while its pieces are in the vector, and the completion callback has fired
      once if the transfer is done. */
  ghost predicate PhaseOk(sg: seq<Piece>, s: Control, subs: seq<Submission>, callbacks: seq<int>) {
    && (s.phase == InFlight ==> |subs| > 0 && subs[|subs| - 1] == Submission(s.sector, s.iov))
    && (s.phase != InFlight ==> s.iov == [])
    && (s.phase == Done <==> |callbacks| == 1) && |callbacks| <= 1
    && (s.phase == Done && callbacks[0] >= 0 ==> s.index == |sg|)
    && (s.phase == Waiting || s.phase == Scheduled ==> s.index < |sg|)
  }

  /** The place is at an empty entry, which can never be mapped. */
  ghost predicate Stalled(sg: seq<Piece>, s: Control) {
    (s.phase == Waiting || s.phase == Scheduled) && s.index < |sg| && sg[s.index].len == 0
  }

  ghost predicate NoneEmpty(sg: seq<Piece>) { forall i :: 0 <= i < |sg| ==> sg[i].len > 0 }

  /** The control block after a batch. */
  function Submitted(s: Control, b: Batch): Control {
    if b.iov == [] then s.(phase := Waiting) else Control(s.sector, b.index, b.at, b.iov, InFlight)
  }

  /** What a batch adds to the requests. */
  function NewRequests(s: Control): seq<Submission> {
    if s.phase == InFlight then [Submission(s.sector, s.iov)] else []
  }

  /** Bytes that still have to be mapped. */
  ghost function Remainder(sg: seq<Piece>, s: Control): nat {
    if Within(sg, s.index, s.at) then Left(sg, s.index, s.at) else 0
  }

  /** One try at a batch: it is in flight exactly when the first mapping gave something, and then less remains. */
  ghost predicate Tried(sg: seq<Piece>, maps: nat -> nat, s: Control, calls: nat, s': Control, calls': nat) {
    && Settled(sg, s.index, s.at) && Within(sg, s.index, s.at) && s.index < |sg|
    && (var b := MapFrom(sg, s.index, s.at, [], maps, calls); s' == Submitted(s, b) && calls' == b.calls)
    && (s'.phase == InFlight <==> Mapped(maps(calls), sg[s.index].len - s.at) > 0)
    && (s'.phase == InFlight ==> Remainder(sg, s') < Remainder(sg, s) && Size(s'.iov) > 0)
    && (s'.phase == InFlight || (s'.phase == Waiting && calls' == calls + 1))
  }

  class Transfer {
    const sg: seq<Piece>
    const start: int
    const maps: nat -> nat       // how many bytes the k-th mapping call can give; none is a failure
    var s: Control
    var mapCalls: nat
    ghost var subs: seq<Submission>
    ghost var callbacks: seq<int>

    ghost predicate Valid()
      reads this
    {
      Progress(sg, start, s, subs) && PhaseOk(sg, s, subs, callbacks) && Settled(sg, s.index, s.at)
    }

    /** dma_bdrv_io: the first batch is mapped and submitted at once. */
    constructor (sg: seq<Piece>, start: int, maps: nat -> nat)
      requires sg != [] && sg[0].len > 0 && maps(0) > 0
      ensures Valid() && s.phase == InFlight && this.sg == sg && this.start == start && this.maps == maps &&
              callbacks == []
      ensures var b := MapFrom(sg, 0, 0, [], maps, 0);
              s == Control(start, b.index, b.at, b.iov, InFlight) && mapCalls == b.calls &&
                subs == [Submission(start, b.iov)]
    {
      this.sg, this.start, this.maps := sg, start, maps;
      s, mapCalls := Control(start, 0, 0, [], Scheduled), 0;
      subs, callbacks := [], [];
      new;
      NothingSubmitted(sg, start);
      hide Progress, MapFrom;
      MapAndSubmit();
    }

    /** The part of dma_bdrv_cb after the test for completion. */
    method MapAndSubmit()
      requires Valid() && s.phase == Scheduled
      modifies this
      ensures Valid() && callbacks == old(callbacks) && Tried(sg, maps, old(s), old(mapCalls), s, mapCalls)
      ensures subs == old(subs) + NewRequests(s)
    {
      hide Covers, Size, Remaining, Progress, PhaseOk, Mapped, MapFrom, Left;
      Positioned(sg, start, s, subs);
      Unfinished(sg, s, subs, callbacks);
      var index, at, iov;
      index, at, iov, mapCalls := MapBatch(sg, s.index, s.at, maps, mapCalls);
      hide Settled;
      if |iov| == 0 {
        WaitOk(sg, start, s, subs, callbacks);
        s := s.(phase := Waiting);
        return;
      }
      SubmitOk(sg, start, s, subs, callbacks, index, at, iov);
      s := Control(s.sector, index, at, iov, InFlight);
      subs := subs + [Submission(s.sector, iov)];
    }

    /** dma_bdrv_cb for a finished request, or called again after a mapping failure. */
    method Callback(ret: int)
      requires Valid() && (s.phase == InFlight || (s.phase == Scheduled && ret == 0))
      modifies this
      ensures Valid() && old(callbacks) == [] && (s.phase == Done <==> old(s).index == |sg| || ret < 0)
      ensures s.phase == Done ==> callbacks == [ret] && subs == old(subs) && mapCalls == old(mapCalls)
      ensures s.phase != Done ==>
                && callbacks == [] && Tried(sg, maps, Cleared(old(s)).(phase := Scheduled), old(mapCalls), s, mapCalls)
                && subs == old(subs) + NewRequests(s)
    {
      NextControl(sg, start, s, subs, callbacks, ret);
      hide Progress, PhaseOk, Size, Settled, Tried;
      s := Cleared(s);
      if s.index == |sg| || ret < 0 {
        callbacks := [ret];
        s := s.(phase := Done);
        return;
      }
      s := s.(phase := Scheduled);
      MapAndSubmit();
    }

    /** continue_after_map_failure: memory can be mapped again, so try from a bottom half. */
    method MemoryAvailable()
      requires Valid() && s.phase == Waiting
      modifies this`s
      ensures Valid() && s == old(s).(phase := Scheduled)
    {
      s := s.(phase := Scheduled);
      PhaseIrrelevant(sg, start, old(s), s, subs);
      hide Progress;
    }

    /** reschedule_dma. */
    method Reschedule()
      requires Valid() && s.phase == Scheduled
      modifies this
      ensures Valid() && callbacks == [] && Tried(sg, maps, old(s), old(mapCalls), s, mapCalls)
      ensures subs == old(subs) + NewRequests(s)
      ensures Stalled(sg, old(s)) ==> s == old(s).(phase := Waiting) && subs == old(subs)
    {
      ClearedScheduled(sg, start, s, subs, callbacks);
      hide Progress, MapFrom, PhaseOk;
      Callback(0);
    }

    /** A whole run, for memory that can be mapped from some call on: every completion is delivered, every retry is
        made. It ends with one callback, or at an empty entry; and it ends with a callback exactly when no entry of
        the list is empty or the last request that completed had failed. */
    method Run(rets: nat -> int, ghost ready: nat) returns (completions: nat)
      requires Valid() && s.phase != Done && forall k :: k >= ready ==> maps(k) > 0
      modifies this
      ensures Valid() && if s.phase == Done then completions > 0 && callbacks == [rets(completions - 1)]
                         else callbacks == [] && Stalled(sg, s)
      ensures s.phase == Done <==> NoneEmpty(sg) || (completions > 0 && rets(completions - 1) < 0)
      ensures Succeed(rets, completions - 1)
    {
      completions := 0;
      hide Progress, MapFrom, Size, Tried, Settled, PhaseOk, Remainder, NoneEmpty, Failures, Reached;
      Uncalled(sg, s, subs, callbacks);
      ReachedFirst(rets);
      while s.phase != Done
        invariant Valid() && Reached(rets, completions, s.phase == Done, callbacks)
        decreases s.phase != Done, Remainder(sg, s), s.phase == InFlight, Failures(ready, mapCalls), s.phase == Waiting
      {
        if s.phase != InFlight && s.index < |sg| && sg[s.index].len == 0 {
          EmptyEntry(sg, s.index);
          ReachedStall(rets, completions, callbacks);
          return;
        }
        completions := Next(rets, completions, ready);
      }
      AllPassed(sg, s, subs, callbacks);
      ReachedEnd(rets, completions, callbacks);
    }

    /** One step of the run, with the number of requests that have completed. */
    method Next(rets: nat -> int, n: nat, ghost ready: nat) returns (completions: nat)
      requires Valid() && s.phase != Done && (s.phase == InFlight || !Stalled(sg, s))
      requires Reached(rets, n, false, callbacks) && forall k :: k >= ready ==> maps(k) > 0
      modifies this
      ensures Valid() && Reached(rets, completions, s.phase == Done, callbacks)
      ensures s.phase == Done || Later(sg, old(s), old(mapCalls), s, mapCalls, ready)
    {
      hide Progress, MapFrom, Size, Tried, Settled, PhaseOk, Remainder, Failures, Later;
      completions := n;
      var completed := Step(rets(n), ready);
      if completed {
        completions := n + 1;
      }
    }

    /** What the outside world does next: it completes the request, or makes memory available, or runs the bottom
        half. */
    method Step(ret: int, ghost ready: nat) returns (completed: bool)
      requires Valid() && s.phase != Done && (s.phase == InFlight || !Stalled(sg, s))
      requires forall k :: k >= ready ==> maps(k) > 0
      modifies this
      ensures Valid() && completed == (old(s).phase == InFlight)
      ensures if s.phase == Done then completed && callbacks == [ret] else callbacks == [] && (completed ==> ret >= 0)
      ensures s.phase == Done || Later(sg, old(s), old(mapCalls), s, mapCalls, ready)
    {
      Uncalled(sg, s, subs, callbacks);
      hide Progress, MapFrom, Size, Tried, Settled, PhaseOk, Remainder;
      completed := s.phase == InFlight;
      if completed {
        Callback(ret);
        if s.phase != Done { TriedLess(sg, maps, old(s), old(mapCalls), s, mapCalls, ready); }
      } else if s.phase == Waiting {
        MemoryAvailable();
        SamePlace(sg, old(s), s);
      } else {
        ClearedScheduled(sg, start, s, subs, callbacks);
        Reschedule();
        TriedLess(sg, maps, old(s), old(mapCalls), s, mapCalls, ready);
      }
    }

    /** Retrying at an empty entry goes on forever: after any number of tries there is no callback. */
    method KeepTrying(tries: nat)
      requires Valid() && Stalled(sg, s) && callbacks == []
      modifies this
      ensures Valid() && Stalled(sg, s) && callbacks == [] && subs == old(subs)
    {
      hide Progress, MapFrom, PhaseOk, Tried, Settled;
      for i := 0 to tries
        invariant Valid() && Stalled(sg, s) && callbacks == [] && subs == old(subs)
      {
        if s.phase == Waiting { MemoryAvailable(); }
        Reschedule();
      }
    }
  }

  /** The first n requests to complete did not fail. */
  ghost predicate Succeed(rets: nat -> int, n: int) { forall k :: 0 <= k < n ==> rets(k) >= 0 }

  /** Where a run stands: the requests that completed, all but perhaps the last without failing, and the callback. */
  ghost predicate Reached(rets: nat -> int, completions: nat, done: bool, callbacks: seq<int>) {
    && Succeed(rets, if done then completions - 1 else completions)
    && callbacks == (if done && completions > 0 then [rets(completions - 1)] else [])
    && (done ==> completions > 0)
  }

  lemma {:induction false} ReachedFirst(rets: nat -> int)
    ensures Reached(rets, 0, false, [])
  {}

  lemma {:induction false} ReachedStall(rets: nat -> int, completions: nat, callbacks: seq<int>)
    requires Reached(rets, completions, false, callbacks)
    ensures Succeed(rets, completions - 1) && callbacks == [] && (completions > 0 ==> rets(completions - 1) >= 0)
  {}

  lemma {:induction false} ReachedEnd(rets: nat -> int, completions: nat, callbacks: seq<int>)
    requires Reached(rets, completions, true, callbacks)
    ensures Succeed(rets, completions - 1) && completions > 0 && callbacks == [rets(completions - 1)]
  {}

  /** The transfer is nearer to its end: fewer bytes remain, or a request is over, or a mapping failure is used up,
      or the bottom half is due. */
  ghost predicate Later(sg: seq<Piece>, s: Control, calls: nat, s': Control, calls': nat, ready: nat) {
    || Remainder(sg, s') < Remainder(sg, s)
    || (&& Remainder(sg, s') == Remainder(sg, s) && s'.phase != InFlight
        && (|| s.phase == InFlight
            || Failures(ready, calls') < Failures(ready, calls)
            || (Failures(ready, calls') == Failures(ready, calls) && s.phase == Waiting && s'.phase != Waiting)))
  }

  /** Mapping calls that may still fail. */
  function Failures(ready: nat, calls: nat): nat { if calls < ready then ready - calls else 0 }

  lemma {:induction false} SamePlace(sg: seq<Piece>, s: Control, s': Control)
    requires s'.index == s.index && s'.at == s.at
    ensures Remainder(sg, s') == Remainder(sg, s)
  {}

  lemma {:induction false} Uncalled(sg: seq<Piece>, s: Control, subs: seq<Submission>, callbacks: seq<int>)
    requires PhaseOk(sg, s, subs, callbacks)
    ensures s.phase != Done ==> callbacks == []
  {}

  lemma {:induction false} EmptyEntry(sg: seq<Piece>, i: nat)
    requires i < |sg| && sg[i].len == 0
    ensures !NoneEmpty(sg)
  {}

  /** A finished transfer that did not fail has passed every entry. */
  lemma {:induction false} AllPassed(sg: seq<Piece>, s: Control, subs: seq<Submission>, callbacks: seq<int>)
    requires PhaseOk(sg, s, subs, callbacks) && Settled(sg, s.index, s.at) && s.phase == Done
    ensures |callbacks| == 1 && (callbacks[0] >= 0 ==> NoneEmpty(sg))
  {}

  /** A try at a batch makes progress unless the entry is empty: bytes are mapped, or one failure is used up. */
  lemma {:induction false} TriedLess(sg: seq<Piece>, maps: nat -> nat, s: Control, calls: nat, s': Control, calls': nat,
                                     ready: nat)
    requires Tried(sg, maps, Cleared(s).(phase := Scheduled), calls, s', calls')
    requires forall k :: k >= ready ==> maps(k) > 0
    ensures s'.phase == InFlight ==> Remainder(sg, s') < Remainder(sg, s)
    ensures s'.phase != InFlight ==> s'.phase == Waiting && Remainder(sg, s') == Remainder(sg, s)
    ensures s'.phase != InFlight && s.index < |sg| && sg[s.index].len > 0 ==>
              Failures(ready, calls') < Failures(ready, calls)
  {
    var c := Cleared(s).(phase := Scheduled);
    SamePlace(sg, s, c);
    if s'.phase != InFlight { SamePlace(sg, c, s'); }
    hide Remainder, MapFrom, Size;
  }

  lemma {:induction false} ClearedScheduled(sg: seq<Piece>, start: int, s: Control, subs: seq<Submission>,
                                            callbacks: seq<int>)
    requires PhaseOk(sg, s, subs, callbacks) && s.phase == Scheduled
    ensures Cleared(s).(phase := Scheduled) == s && s.index < |sg|
  {
    assert Size([]) == 0;
  }

  /** The control block once the sectors of its vector are behind it. */
  function Cleared(s: Control): Control { s.(sector := s.sector + Size(s.iov) / 512, iov := []) }

  /** After a request the transfer is done, or ready for the next batch. */
  lemma {:induction false} NextControl(sg: seq<Piece>, start: int, s: Control, subs: seq<Submission>,
                                       callbacks: seq<int>, ret: int)
    requires Progress(sg, start, s, subs) && PhaseOk(sg, s, subs, callbacks)
    requires s.phase == InFlight || (s.phase == Scheduled && ret == 0)
    ensures callbacks == [] && s.index <= |sg|
    ensures if s.index == |sg| || ret < 0
            then Progress(sg, start, Cleared(s).(phase := Done), subs) &&
              PhaseOk(sg, Cleared(s).(phase := Done), subs, [ret])
            else Progress(sg, start, Cleared(s).(phase := Scheduled), subs) &&
                 PhaseOk(sg, Cleared(s).(phase := Scheduled), subs, [])
  {
    Finished(sg, start, s, subs);
    PhaseIrrelevant(sg, start, Cleared(s), Cleared(s).(phase := Done), subs);
    PhaseIrrelevant(sg, start, Cleared(s), Cleared(s).(phase := Scheduled), subs);
    hide Progress, Size;
  }

  lemma {:induction false} Unfinished(sg: seq<Piece>, s: Control, subs: seq<Submission>, callbacks: seq<int>)
    requires PhaseOk(sg, s, subs, callbacks) && s.phase == Scheduled
    ensures s.index < |sg| && s.iov == []
  {}

  lemma {:induction false} WaitOk(sg: seq<Piece>, start: int, s: Control, subs: seq<Submission>, callbacks: seq<int>)
    requires Progress(sg, start, s, subs) && PhaseOk(sg, s, subs, callbacks) && s.phase == Scheduled
    ensures Progress(sg, start, s.(phase := Waiting), subs) && PhaseOk(sg, s.(phase := Waiting), subs, callbacks)
  {
    PhaseIrrelevant(sg, start, s, s.(phase := Waiting), subs);
    hide Progress;
  }

  lemma {:induction false} SubmitOk(sg: seq<Piece>, start: int, s: Control, subs: seq<Submission>, callbacks: seq<int>,
                                    index: nat, at: nat, iov: seq<Piece>)
    requires Progress(sg, start, s, subs) && PhaseOk(sg, s, subs, callbacks) && s.phase == Scheduled &&
             Within(sg, s.index, s.at)
    requires Covers(iov, sg, index, at, Remaining(sg, s.index, s.at))
    ensures var (s', subs') := (Control(s.sector, index, at, iov, InFlight), subs + [Submission(s.sector, iov)]);
            Progress(sg, start, s', subs') && PhaseOk(sg, s', subs', callbacks)
  {
    Positioned(sg, start, s, subs);
    hide Covers, Size, Remaining, Addresses, Pieces, Consecutive, NextSector;
    SubmitMore(subs, Submission(s.sector, iov), start, sg, s.index, s.at, index, at);
  }

  lemma {:induction false} PhaseIrrelevant(sg: seq<Piece>, start: int, s: Control, s': Control, subs: seq<Submission>)
    requires Progress(sg, start, s, subs) && s' == s.(phase := s'.phase)
    ensures Progress(sg, start, s', subs)
  {
    hide Covers, Size, Consecutive, NextSector, Addresses, Pieces;
  }

  /** The vector of a finished request is cleared and its sectors are behind us. */
  lemma {:induction false} Finished(sg: seq<Piece>, start: int, s: Control, subs: seq<Submission>)
    requires Progress(sg, start, s, subs)
    ensures Progress(sg, start, s.(sector := s.sector + Size(s.iov) / 512, iov := []), subs) &&
            Within(sg, s.index, s.at)
  {
    assert Size([]) == 0;
    hide Size, Consecutive, NextSector, Addresses, Pieces, Remaining;
  }

  lemma {:induction false} Positioned(sg: seq<Piece>, start: int, s: Control, subs: seq<Submission>)
    requires Progress(sg, start, s, subs)
    ensures Within(sg, s.index, s.at) && (s.iov == [] ==> s.sector == NextSector(subs, start))
  {
    assert Size([]) == 0;
    hide Size, Consecutive, NextSector, Addresses, Pieces, Remaining;
  }

  lemma {:induction false} NothingSubmitted(sg: seq<Piece>, start: int)
    requires sg != []
    ensures Progress(sg, start, Control(start, 0, 0, [], Scheduled), [])
  {
    RemainingFresh(sg, 0);
    assert sg[0..] == sg;
    NothingMapped(sg, 0, 0);
  }

  /** Where the next submission goes. */
  ghost function NextSector(subs: seq<Submission>, start: int): int {
    if subs == [] then start
    else subs[|subs| - 1].sector + Size(subs[|subs| - 1].pieces) / 512
  }

  lemma {:induction false} NextAfter(subs: seq<Submission>, s: Submission, start: int)
    requires Consecutive(subs, start) && s.sector == NextSector(subs, start)
    ensures Consecutive(subs + [s], start) && NextSector(subs + [s], start) == s.sector + Size(s.pieces) / 512
  {
    var subs' := subs + [s];
    forall i | 0 < i < |subs'| ensures subs'[i].sector == subs'[i - 1].sector + Size(subs'[i - 1].pieces) / 512 {
      if i < |subs| { assert subs[i].sector == subs[i - 1].sector + Size(subs[i - 1].pieces) / 512; }
    }
  }

  lemma {:induction false} SubmitMore(subs: seq<Submission>, s: Submission, start: int, sg: seq<Piece>, index: nat,
                                      at: nat, index': nat, at': nat)
    requires Consecutive(subs, start) && s.sector == NextSector(subs, start)
    requires Covers(Pieces(subs), sg, index, at, Addresses(sg)) &&
             Covers(s.pieces, sg, index', at', Remaining(sg, index, at))
    ensures Consecutive(subs + [s], start) && NextSector(subs + [s], start) == s.sector + Size(s.pieces) / 512
    ensures Covers(Pieces(subs + [s]), sg, index', at', Addresses(sg))
  {
    hide Addresses, Pieces, Consecutive, NextSector, Remaining, Then, Size;
    NextAfter(subs, s, start);
    PiecesMore(subs, s);
    AddressesConcat(Pieces(subs), s.pieces);
    Regroup(Addresses(Pieces(subs)), Addresses(s.pieces), Remaining(sg, index', at'));
  }

  /** A transfer that reports success has submitted every byte of the list once and in order, each batch at the
      sector its place calls for as long as the batches before it were whole sectors. */
  lemma {:induction false} Complete(t: Transfer, i: nat)
    requires t.Valid() && t.s.phase == Done && t.callbacks[0] >= 0 && i < |t.subs|
    ensures Addresses(Pieces(t.subs)) == Addresses(t.sg)
    ensures (t.subs[i].sector - t.start) * 512 == |Addresses(Pieces(t.subs[..i]))| <==> WholeSectors(t.subs[..i])
  {
    SectorIsPlace(t.subs, t.start, i);
  }

  /** A list with an empty entry behind a full one: its transfer never completes, however often it retries. */
  method StalledTransfer(tries: nat) returns (t: Transfer)
    ensures t.sg == [Piece(0, 512), Piece(0, 0)] && t.Valid() && t.s.phase != Done && t.callbacks == []
  {
    t := new Transfer([Piece(0, 512), Piece(0, 0)], 0, Plenty);
    hide MapFrom, Progress, PhaseOk, Settled, Stalled;
    EmptyEntry(t.sg, 1);
    var n := t.Run(Success, 0);
    t.KeepTrying(tries);
  }

  const Plenty: nat -> nat := _ => 4096

  const Success: nat -> int := _ => 0

  /** Mapping that gives a hundred bytes, then fails once, then gives plenty. */
  const Short: nat -> nat := k => if k == 0 then 100 else if k == 1 then 0 else 4096

  /** A first batch that is not whole sectors: the second batch is submitted over it, to the same sector. */
  method Misplaced(start: int) returns (t: Transfer)
    ensures t.Valid() && t.start == start && |t.subs| == 2 && Size(t.subs[0].pieces) == 100
    ensures t.subs[0].sector == t.subs[1].sector == start
  {
    ShortBatch();
    t := new Transfer([Piece(0, 612)], start, Short);
    hide MapFrom, Progress, PhaseOk, Settled;
    assert Size([Piece(0, 100)]) == 100 by { assert [Piece(0, 100)][1..] == []; }
    hide Size;
    t.Callback(0);
    assert t.subs[0] == Submission(start, [Piece(0, 100)]);
  }

  lemma {:induction false} ShortBatch()
    ensures Within([Piece(0, 612)], 0, 0)
    ensures MapFrom([Piece(0, 612)], 0, 0, [], Short, 0) == Batch(0, 100, [Piece(0, 100)], 2)
  {
    var sg := [Piece(0, 612)];
    MapFromStep(sg, 0, 0, [], Short, 0);
    assert [] + [Piece(0, 100)] == [Piece(0, 100)];
    MapFromStep(sg, 0, 100, [Piece(0, 100)], Short, 1);
    hide MapFrom;
  }

  /** The list of memory stretches. */
  class SgList {
    var sg: seq<Piece>
    var nalloc: nat
    var size: nat

    ghost predicate Valid()
      reads this
    {
      |sg| <= nalloc && size == |Addresses(sg)|
    }

    constructor (hint: nat)
      ensures Valid() && sg == []
    {
      sg, nalloc, size := [], hint, 0;
    }

    /** qemu_sglist_add: the new entry always fits, and size counts the bytes of the list. */
    method Add(base: int, len: nat)
      requires Valid()
      modifies this
      ensures Valid() && sg == old(sg) + [Piece(base, len)] && nalloc >= old(nalloc)
    {
      if |sg| == nalloc { nalloc := 2 * nalloc + 1; }
      AddressesConcat(sg, [Piece(base, len)]);
      AddressesOne(Piece(base, len));
      sg := sg + [Piece(base, len)];
      size := size + len;
    }
  }
}
