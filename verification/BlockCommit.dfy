/**
 Committing a copy-on-write overlay into its backing image (block.c:514-555).

 A guest reads the overlay where it has a sector, the backing image elsewhere, and zeros past
 the end of the backing image. Driver failures are inputs, and a failing write may leave
 anything in the sector it was writing. The driver's allocation query answers with a run of
 sectors in one state that lies on the device.
 */
module BlockCommit {
  import opened Common

  /** The contents of a sector. */
  type Sector = seq<int>

  datatype Option = None | Some(data: Sector)

  function Zeros(): Sector { seq(512, _ => 0) }

  /** What the guest reads from sector i. */
  function View(overlay: seq<Option>, backing: seq<Sector>, i: nat): Sector
    requires i < |overlay|
  {
    if overlay[i].Some? then overlay[i].data else if i < |backing| then backing[i] else Zeros()
  }

  ghost predicate SameView(overlay: seq<Option>, backing: seq<Sector>, overlay': seq<Option>, backing': seq<Sector>) {
    && |overlay'| == |overlay|
    && forall i :: 0 <= i < |overlay| ==> View(overlay', backing', i) == View(overlay, backing, i)
  }

  /** Every sector the overlay holds, up to n, is in the backing image too. */
  ghost predicate CommittedTo(overlay: seq<Option>, backing: seq<Sector>, n: nat)
    requires n <= |overlay|
  {
    forall i :: 0 <= i < n && overlay[i].Some? ==> i < |backing| && backing[i] == overlay[i].data
  }

  /** Dropping any set of overlay sectors. */
  function Dropped(overlay: seq<Option>, gone: set<nat>): seq<Option> {
    seq(|overlay|, i => if 0 <= i < |overlay| && i !in gone then overlay[i] else None)
  }

  /** Once the overlay is committed, dropping any of its sectors changes nothing the guest sees. */
  lemma {:induction false} DropKeepsView(overlay: seq<Option>, backing: seq<Sector>, gone: set<nat>)
    requires CommittedTo(overlay, backing, |overlay|)
    ensures SameView(overlay, backing, Dropped(overlay, gone), backing)
  {}

  /** A backing sector under an overlay sector may change freely. */
  lemma {:induction false} CoveredWrite(overlay: seq<Option>, backing: seq<Sector>, i: nat, s: Sector)
    requires i < |overlay| && overlay[i].Some? && i < |backing|
    ensures SameView(overlay, backing, overlay, backing[i := s])
  {}

  lemma {:induction false} SameViewTwice(o: seq<Option>, b: seq<Sector>, o1: seq<Option>, b1: seq<Sector>,
                                         o2: seq<Option>, b2: seq<Sector>)
    requires SameView(o, b, o1, b1) && SameView(o1, b1, o2, b2)
    ensures SameView(o, b, o2, b2)
  {}

  /** If a dropped sector was not committed, the guest notices, unless the image under it reads the same. */
  lemma {:induction false} DropNeedsCommit(overlay: seq<Option>, backing: seq<Sector>, i: nat)
    requires i < |overlay| && overlay[i].Some?
    requires SameView(overlay, backing, Dropped(overlay, {i}), backing)
    ensures (if i < |backing| then backing[i] else Zeros()) == overlay[i].data
  {
    assert View(Dropped(overlay, {i}), backing, i) == View(overlay, backing, i);
  }

  /** The n sectors from i on lie on the device and are all in one state. */
  ghost predicate UniformRun(overlay: seq<Option>, i: nat, n: nat) {
    1 <= n && i + n <= |overlay| && forall j :: i <= j < i + n ==> overlay[j].Some? == overlay[i].Some?
  }

  /** What the driver may answer. */
  ghost predicate RunsOk(overlay: seq<Option>, run: nat -> nat) {
    forall i :: 0 <= i < |overlay| ==> UniformRun(overlay, i, run(i))
  }

  /** The backing image can take every sector of the overlay. */
  ghost predicate CanHold(overlay: seq<Option>, backing: seq<Sector>, readOnly: bool) {
    forall i :: 0 <= i < |overlay| && overlay[i].Some? ==> i < |backing| && !readOnly
  }

  class Image {
    var overlay: seq<Option>
    var backing: seq<Sector>
    var calls: nat               // driver calls so far
    const present: bool          // the device has a driver
    const readOnly: bool
    const hasBacking: bool
    const backingReadOnly: bool
    const fails: nat -> bool
    const garbage: nat -> Sector // what failing writes leave behind

    constructor (overlay: seq<Option>, backing: seq<Sector>, present: bool, readOnly: bool, hasBacking: bool,
                 backingReadOnly: bool,
                 fails: nat -> bool, garbage: nat -> Sector)
      ensures this.overlay == overlay && this.backing == backing
    {
      this.overlay, this.backing, this.present, this.readOnly := overlay, backing, present, readOnly;
      this.hasBacking, this.backingReadOnly, this.fails, this.garbage := hasBacking, backingReadOnly, fails, garbage;
      calls := 0;
    }

    /** bdrv_read of one sector of the overlay. */
    method ReadSector(i: nat) returns (r: int, s: Sector)
      requires i < |overlay|
      modifies this`calls
      ensures r == 0 ==> s == View(overlay, backing, i)
      ensures r == 0 <==> Worked(fails, old(calls), calls)
      ensures calls == old(calls) + 1
    {
      calls := calls + 1;
      s := View(overlay, backing, i);
      r := if fails(calls - 1) then -EIO else 0;
    }

    /** bdrv_write of one sector of the backing image. */
    method WriteBacking(i: nat, s: Sector) returns (r: int)
      modifies this`calls, this`backing
      ensures r == 0 <==> !backingReadOnly && i < |old(backing)| && Worked(fails, old(calls), calls)
      ensures r == 0 ==> backing == old(backing)[i := s]
      ensures |backing| == |old(backing)| && forall k :: 0 <= k < |backing| && k != i ==> backing[k] == old(backing)[k]
      ensures calls >= old(calls)
    {
      if backingReadOnly { return -EACCES; }
      if i >= |backing| { return -EIO; }
      calls := calls + 1;
      if fails(calls - 1) {
        backing := backing[i := garbage(calls - 1)];
        return -EIO;
      }
      backing := backing[i := s];
      return 0;
    }

    /** bdrv_commit. However it ends, the guest reads what it read before. When it reports success the backing
        image holds every sector of the overlay as it was, and the overlay may be emptied. The driver's emptying
        drops the sectors of gone and answers emptied. */
    method Commit(run: nat -> nat, canEmpty: bool, emptied: int, gone: set<nat>) returns (r: int)
      requires RunsOk(overlay, run) && (emptied == 0 ==> forall i :: 0 <= i < |overlay| ==> i in gone)
      modifies this
      ensures SameView(old(overlay), old(backing), overlay, backing)
      ensures !present ==> r == -ENOMEDIUM
      ensures present && readOnly ==> r == -EACCES
      ensures present && !readOnly && !hasBacking ==> r == -ENOTSUP
      ensures !present || readOnly || !hasBacking ==> overlay == old(overlay) && backing == old(backing)
      ensures r == 0 ==> CommittedTo(old(overlay), backing, |old(overlay)|)
      ensures r == 0 ==> forall i :: 0 <= i < |backing| && i < |overlay| ==>
                backing[i] == View(old(overlay), old(backing), i)
      ensures r == 0 && canEmpty ==> forall i :: 0 <= i < |overlay| ==> overlay[i] == None
      ensures overlay != old(overlay) ==> r == emptied
      ensures calls >= old(calls)
      ensures present && !readOnly && hasBacking ==>
                r == if Worked(fails, old(calls), calls) && CanHold(old(overlay), old(backing), backingReadOnly)
                     then (if canEmpty then emptied else 0) else -EIO
    {
      if !present { return -ENOMEDIUM; }
      if readOnly { return -EACCES; }
      if !hasBacking { return -ENOTSUP; }
      ghost var backing0 := backing;
      var total := |overlay|;
      var i := 0;
      while i < total
        invariant i <= total && overlay == old(overlay) && CommittedTo(overlay, backing, i)
        invariant SameView(overlay, backing0, overlay, backing) && |backing| == |backing0|
        invariant calls >= old(calls) && Worked(fails, old(calls), calls)
        invariant forall k :: 0 <= k < i && overlay[k].Some? ==> k < |backing| && !backingReadOnly
      {
        var n := run(i);
        assert UniformRun(overlay, i, n);
        if overlay[i].Some? {
          ghost var c := calls;
          var ok := CommitRun(i, n, backing0);
          if !ok {
            assert overlay[i + n - 1].Some?;
            return -EIO;
          }
        }
        i := i + n;
      }
      assert forall k :: 0 <= k < |backing| && k < |overlay| ==> backing[k] == View(overlay, backing, k);
      if canEmpty {
        DropKeepsView(overlay, backing, gone);
        SameViewTwice(old(overlay), backing0, overlay, backing, Dropped(overlay, gone), backing);
        overlay := Dropped(overlay, gone);
        return emptied;
      }
      return 0;
    }

    /** The inner loop: copy n allocated sectors. */
    method CommitRun(i0: nat, n: nat, ghost backing0: seq<Sector>) returns (ok: bool)
      requires i0 + n <= |overlay| && (forall j :: i0 <= j < i0 + n ==> overlay[j].Some?)
      requires CommittedTo(overlay, backing, i0) && SameView(overlay, backing0, overlay, backing) &&
               |backing| == |backing0|
      modifies this`backing, this`calls
      ensures SameView(overlay, backing0, overlay, backing) && |backing| == |backing0|
      ensures ok ==> CommittedTo(overlay, backing, i0 + n)
      ensures calls >= old(calls)
      ensures ok <==> Worked(fails, old(calls), calls) && (n == 0 || (i0 + n <= |backing| && !backingReadOnly))
    {
      var i := i0;
      while i < i0 + n
        invariant i0 <= i <= i0 + n && CommittedTo(overlay, backing, i)
        invariant calls >= old(calls) && Worked(fails, old(calls), calls)
        invariant i == i0 || (i <= |backing| && !backingReadOnly)
        invariant SameView(overlay, backing0, overlay, backing) && |backing| == |backing0|
      {
        var e, s := ReadSector(i);
        if e != 0 { return false; }
        ghost var before := backing;
        e := WriteBacking(i, s);
        if i < |backing| {
          assert backing == before[i := backing[i]];
          CoveredWrite(overlay, before, i, backing[i]);
        } else {
          assert backing == before;
        }
        SameViewTwice(overlay, backing0, overlay, before, overlay, backing);
        if e != 0 { return false; }
        i := i + 1;
      }
      return true;
    }
  }
}
