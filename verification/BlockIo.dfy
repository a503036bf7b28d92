/**
 Byte access to a sector device (block.c:557-709).

 The disk is the sequence of its bytes; its length need not be a multiple of the sector size.
 Whether the driver fails a call is an input, and a write that fails may leave anything in the
 sectors it was writing. Devices that grow are not modelled.
 */
module BlockIo {
  import opened Common

  // ----- byte ranges

  function Patched(disk: seq<byte>, at: nat, data: seq<byte>): (d: seq<byte>)
    requires at + |data| <= |disk|
    ensures |d| == |disk|
  {
    disk[..at] + data + disk[at + |data|..]
  }

  /** The end of the last sector that a range of bytes touches. */
  function SectorEnd(offset: int, count: nat): int { (offset + count + 511) / 512 * 512 }

  /** A request succeeds exactly when its whole sectors lie on the disk. */
  predicate Fits(offset: int, count: nat, size: nat) { count == 0 || (offset >= 0 && SectorEnd(offset, count) <= size) }

  /** On a disk of whole sectors this is what a byte device would ask for. */
  lemma {:induction false} FitsWholeSectors(offset: int, count: nat, size: nat)
    requires size % 512 == 0
    ensures Fits(offset, count, size) <==> count == 0 || (offset >= 0 && offset + count <= size)
  {}

  /** On any disk a request succeeds exactly when it stays clear of a short last sector. */
  lemma {:induction false} TailOutOfReach(offset: int, count: nat, size: nat)
    ensures Fits(offset, count, size) <==> count == 0 || (offset >= 0 && offset + count <= size / 512 * 512)
  {
    if count > 0 && offset >= 0 { WholeEnd(offset + count, size); }
  }

  lemma {:induction false} WholeEnd(end: nat, size: nat)
    ensures (end + 511) / 512 * 512 <= size <==> end <= size / 512 * 512
  {
    assert (end + 511) / 512 <= size / 512 <==> end <= size / 512 * 512;
  }

  lemma {:induction false} PatchedTwice(disk: seq<byte>, at: nat, a: seq<byte>, b: seq<byte>)
    requires at + |a| + |b| <= |disk|
    ensures Patched(Patched(disk, at, a), at + |a|, b) == Patched(disk, at, a + b)
  {}

  /** Writing back a whole sector with some of its bytes replaced replaces just those bytes. */
  lemma {:induction false} PatchedWithin(disk: seq<byte>, at: nat, len: nat, i: nat, data: seq<byte>)
    requires at + len <= |disk| && i + |data| <= len
    ensures Patched(disk, at, Patched(disk[at..at + len], i, data)) == Patched(disk, at + i, data)
  {}

  /** The bytes outside the range from .. to are the same. */
  ghost predicate SameOutside(disk: seq<byte>, disk': seq<byte>, from: int, to: int) {
    |disk'| == |disk| && forall i :: 0 <= i < |disk| && !(from <= i < to) ==> disk'[i] == disk[i]
  }

  lemma {:induction false} SameOutsideMore(d0: seq<byte>, d1: seq<byte>, d2: seq<byte>, from: int, to: int, a: int,
                                           b: int)
    requires SameOutside(d0, d1, from, to) && SameOutside(d1, d2, a, b) && from <= a && b <= to
    ensures SameOutside(d0, d2, from, to) && |d2| == |d0|
  {}

  lemma {:induction false} WorkedSplit(fails: nat -> bool, a: nat, b: nat, c: nat)
    requires a <= b <= c
    ensures Worked(fails, a, c) <==> Worked(fails, a, b) && Worked(fails, b, c)
  {}

  class Device {
    var disk: seq<byte>
    var calls: nat               // calls made to the driver
    const inserted: bool
    const readOnly: bool
    const fails: nat -> bool
    const garbage: nat -> byte   // what failing writes leave behind

    constructor (disk: seq<byte>, inserted: bool, readOnly: bool, fails: nat -> bool, garbage: nat -> byte)
      ensures this.disk == disk && this.inserted == inserted && this.readOnly == readOnly && calls == 0
      ensures this.fails == fails && this.garbage == garbage
    {
      this.disk, this.inserted, this.readOnly, this.fails, this.garbage := disk, inserted, readOnly, fails, garbage;
      calls := 0;
    }

    /** bdrv_check_byte_request. */
    function CheckBytes(offset: int, size: nat): (r: int)
      reads this
      ensures r == 0 <==> inserted && 0 <= offset && offset + size <= |disk|
    {
      if !inserted then -ENOMEDIUM
      else if offset < 0 then -EIO
      else if offset > |disk| || |disk| - offset < size then -EIO
      else 0
    }

    /** bdrv_read. */
    method Read(sector: int, n: nat) returns (r: int, data: seq<byte>)
      modifies this`calls
      ensures old(calls) <= calls <= old(calls) + 1
      ensures r == 0 <==>
                inserted && 0 <= sector && sector * 512 + n * 512 <= |disk| && Worked(fails, old(calls), calls)
      ensures r == 0 ==> data == disk[sector * 512..sector * 512 + n * 512]
      ensures r <= 0
    {
      data := [];
      if !inserted { return -ENOMEDIUM, []; }
      if CheckBytes(sector * 512, n * 512) != 0 { return -EIO, []; }
      calls := calls + 1;
      if fails(calls - 1) { return -EIO, []; }
      return 0, disk[sector * 512..sector * 512 + n * 512];
    }

    /** bdrv_write of whole sectors. */
    method Write(sector: int, data: seq<byte>) returns (r: int)
      requires |data| % 512 == 0
      modifies this`calls, this`disk
      ensures old(calls) <= calls <= old(calls) + 1
      ensures r == 0 <==>
                inserted && !readOnly && 0 <= sector && sector * 512 + |data| <= |disk| &&
                Worked(fails, old(calls), calls)
      ensures r == 0 ==> sector * 512 + |data| <= |old(disk)| && disk == Patched(old(disk), sector * 512, data)
      ensures SameOutside(old(disk), disk, sector * 512, sector * 512 + |data|)
      ensures r <= 0
    {
      if !inserted { return -ENOMEDIUM; }
      if readOnly { return -EACCES; }
      if CheckBytes(sector * 512, |data|) != 0 { return -EIO; }
      calls := calls + 1;
      if fails(calls - 1) {
        disk := Patched(disk, sector * 512, seq(|data|, i requires 0 <= i < |data| => garbage(i)));
        return -EIO;
      }
      disk := Patched(disk, sector * 512, data);
      return 0;
    }

    /** The bytes [pos, pos + len) out of the n sectors that hold them, by one call of bdrv_read. */
    method ReadPiece(pos: int, len: nat, n: nat) returns (r: int, data: seq<byte>)
      requires len > 0 && SectorEnd(pos, len) == (pos / 512 + n) * 512
      modifies this`calls
      ensures calls >= old(calls) && r <= 0
      ensures r == 0 <==> inserted && Fits(pos, len, |disk|) && Worked(fails, old(calls), calls)
      ensures r == 0 ==> data == disk[pos..pos + len]
    {
      var all;
      r, all := Read(pos / 512, n);
      data := [];
      if r == 0 {
        data := all[pos % 512..pos % 512 + len];
        Within(disk, pos / 512 * 512, n * 512, pos % 512, len);
      }
    }

    /** The part of bdrv_pread from a sector boundary on: whole sectors, then the start of one more. */
    method ReadAligned(pos: int, count: nat) returns (r: int, data: seq<byte>)
      requires pos % 512 == 0 && count > 0
      modifies this`calls
      ensures calls >= old(calls) && r <= 0
      ensures r == 0 <==> inserted && Fits(pos, count, |disk|) && Worked(fails, old(calls), calls)
      ensures r == 0 ==> data == disk[pos..pos + count]
    {
      data := [];
      var nb := count / 512;
      var whole := WholeLength(count);
      var rest := count - whole;
      Aligned(pos, count);
      hide Fits, SectorEnd, Worked, WholeLength;
      if nb > 0 {
        r, data := ReadPiece(pos, whole, nb);
        if rest == 0 { return; }
        FitsSplit(pos, whole, rest, |disk|);
        if r < 0 { return; }
      }
      ghost var mid := calls;
      var part;
      r, part := ReadPiece(pos + whole, rest, 1);
      WorkedSplit(fails, old(calls), mid, calls);
      if r == 0 {
        FitsOnDisk(pos, count, |disk|);
        Joined(disk, pos, pos + whole, pos + count);
        data := data + part;
      }
    }

    /** bdrv_pread: success exactly when the sectors of the range can be read, and then the bytes asked for. */
    method PRead(offset: int, count1: nat) returns (r: int, buf: seq<byte>)
      modifies this`calls
      ensures calls >= old(calls)
      ensures r == count1 <==> count1 == 0 || (inserted && Fits(offset, count1, |disk|) &&
                                               Worked(fails, old(calls), calls))
      ensures r != count1 ==> r == -EIO
      ensures r == count1 > 0 ==> offset >= 0 && offset + count1 <= |disk| && buf == disk[offset..offset + count1]
    {
      buf := [];
      var len := HeadLength(offset, count1);
      HeadSector(offset, count1);
      hide Fits, SectorEnd, Worked, HeadLength;
      var e := 0;
      if len > 0 {
        e, buf := ReadPiece(offset, len, 1);
        if count1 > len { FitsSplit(offset, len, count1 - len, |disk|); }
        if e < 0 { return -EIO, []; }
        FitsOnDisk(offset, len, |disk|);
        if count1 == len { return count1, buf; }
      }
      if count1 > len {
        ghost var mid := calls;
        var part;
        e, part := ReadAligned(offset + len, count1 - len);
        WorkedSplit(fails, old(calls), mid, calls);
        if e < 0 { return -EIO, []; }
        FitsOnDisk(offset + len, count1 - len, |disk|);
        Joined(disk, offset, offset + len, offset + count1);
        buf := buf + part;
      }
      return count1, buf;
    }

    /** Bytes [pos, pos + |data|) of one sector, by reading it, changing them and writing it back. */
    method UpdateSector(pos: int, data: seq<byte>) returns (r: int)
      requires |data| > 0 && SectorEnd(pos, |data|) == (pos / 512 + 1) * 512
      modifies this
      ensures calls >= old(calls) && r <= 0
      ensures r == 0 <==> inserted && !readOnly && Fits(pos, |data|, |old(disk)|) && Worked(fails, old(calls), calls)
      ensures r == 0 ==> disk == Patched(old(disk), pos, data)
      ensures SameOutside(old(disk), disk, pos / 512 * 512, SectorEnd(pos, |data|))
    {
      var sector := pos / 512;
      var tmp;
      r, tmp := Read(sector, 1);
      if r < 0 { return; }
      ghost var before := disk;
      var i := pos % 512;
      tmp := Patched(tmp, i, data);
      PatchedWithin(disk, sector * 512, 512, i, data);
      r := Write(sector, tmp);
    }

    /** Whole sectors, by one call of bdrv_write. */
    method WriteWhole(pos: int, data: seq<byte>) returns (r: int)
      requires pos % 512 == 0 && |data| > 0 && |data| % 512 == 0
      modifies this
      ensures calls >= old(calls) && r <= 0
      ensures r == 0 <==> inserted && !readOnly && Fits(pos, |data|, |old(disk)|) && Worked(fails, old(calls), calls)
      ensures r == 0 ==> pos >= 0 && pos + |data| <= |old(disk)| && disk == Patched(old(disk), pos, data)
      ensures SameOutside(old(disk), disk, pos, SectorEnd(pos, |data|))
    {
      WholeSectors(pos, |data| / 512);
      r := Write(pos / 512, data);
    }

    /** The part of bdrv_pwrite from a sector boundary on. */
    method WriteAligned(pos: int, data: seq<byte>) returns (r: int)
      requires pos % 512 == 0 && |data| > 0
      modifies this
      ensures calls >= old(calls) && r <= 0
      ensures r == 0 <==> inserted && !readOnly && Fits(pos, |data|, |old(disk)|) && Worked(fails, old(calls), calls)
      ensures r == 0 ==> pos >= 0 && pos + |data| <= |old(disk)| && disk == Patched(old(disk), pos, data)
      ensures SameOutside(old(disk), disk, pos, SectorEnd(pos, |data|))
    {
      var whole := WholeLength(|data|);
      var rest := |data| - whole;
      ghost var (disk0, end) := (disk, SectorEnd(pos, |data|));
      Aligned(pos, |data|);
      assert SameOutside(disk0, disk0, pos, end);
      EndsGrow(pos, whole, |data|);
      hide Fits, SectorEnd, Patched, SameOutside, Worked, WholeLength;
      if whole > 0 {
        if rest == 0 { assert data[..whole] == data; }
        r := WriteWhole(pos, data[..whole]);
        if rest == 0 { return; }
        FitsSplit(pos, whole, rest, |disk0|);
        SameOutsideMore(disk0, disk0, disk, pos, end, pos, SectorEnd(pos, whole));
        if r < 0 { return; }
      } else {
        assert data[0..] == data;
      }
      ghost var (disk1, mid) := (disk, calls);
      r := UpdateSector(pos + whole, data[whole..]);
      WorkedSplit(fails, old(calls), mid, calls);
      SameOutsideMore(disk0, disk1, disk, pos, end, pos + whole, end);
      if r == 0 {
        FitsOnDisk(pos, |data|, |disk0|);
        Rejoined(disk0, pos, data, whole);
      }
    }

    /** bdrv_pwrite: success exactly when the sectors of the range can be read and written, and then exactly
        those bytes are replaced. A failure touches nothing outside the sectors of the range. */
    method PWrite(offset: int, buf: seq<byte>) returns (r: int)
      modifies this
      ensures calls >= old(calls)
      ensures r == |buf| <==>
                buf == [] || (inserted && !readOnly && Fits(offset, |buf|, |old(disk)|) &&
                              Worked(fails, old(calls), calls))
      ensures r != |buf| ==> r == -EIO
      ensures r == |buf| > 0 ==> offset >= 0 && offset + |buf| <= |old(disk)| && disk == Patched(old(disk), offset, buf)
      ensures SameOutside(old(disk), disk, offset / 512 * 512, SectorEnd(offset, |buf|))
    {
      var len := HeadLength(offset, |buf|);
      HeadSector(offset, |buf|);
      ghost var (disk0, start, end) := (disk, offset / 512 * 512, SectorEnd(offset, |buf|));
      assert SameOutside(disk0, disk0, start, end);
      EndsGrow(offset, len, |buf|);
      assert start <= offset;
      hide Fits, SectorEnd, Patched, SameOutside, Worked, HeadLength;
      var e := 0;
      if len > 0 {
        e := UpdateSector(offset, buf[..len]);
        SameOutsideMore(disk0, disk0, disk, start, end, start, SectorEnd(offset, len));
        if |buf| > len { FitsSplit(offset, len, |buf| - len, |disk0|); }
        if e < 0 { return -EIO; }
        FitsOnDisk(offset, len, |disk0|);
        if |buf| == len {
          assert buf[..len] == buf;
          return |buf|;
        }
      }
      if |buf| > len {
        ghost var (disk1, mid) := (disk, calls);
        e := WriteAligned(offset + len, buf[len..]);
        WorkedSplit(fails, old(calls), mid, calls);
        SameOutsideMore(disk0, disk1, disk, start, end, offset + len, end);
        if e < 0 { return -EIO; }
        FitsOnDisk(offset + len, |buf| - len, |disk0|);
        if len > 0 { Rejoined(disk0, offset, buf, len); } else { assert buf[0..] == buf; }
      }
      return |buf|;
    }

    /** What was written is what is read back. */
    method WriteThenRead(offset: int, buf: seq<byte>) returns (w: int, r: int, back: seq<byte>)
      modifies this
      ensures w == r == |buf| ==> back == buf
      ensures w == |buf| && Worked(fails, old(calls), calls) ==> r == |buf|
    {
      w := PWrite(offset, buf);
      r, back := PRead(offset, |buf|);
      if w == r == |buf| > 0 { ReadBack(old(disk), offset, buf); }
      if buf == [] { back := []; }
    }
  }

  /** The last 188 bytes of a device of 700 cannot be read, and the first 512 can. */
  method ShortTail(disk: seq<byte>) returns (tail: int, front: int)
    requires |disk| == 700
    ensures tail == -EIO && front == 512
  {
    var d := new Device(disk, true, false, _ => false, _ => 0);
    TailOutOfReach(512, 188, 700);
    TailOutOfReach(0, 512, 700);
    var data;
    tail, data := d.PRead(512, 188);
    front, data := d.PRead(0, 512);
  }

  lemma {:induction false} ReadBack(disk: seq<byte>, at: nat, data: seq<byte>)
    requires at + |data| <= |disk|
    ensures Patched(disk, at, data)[at..at + |data|] == data
  {}

  /** Two pieces written one after the other are one write. */
  lemma {:induction false} Rejoined(disk: seq<byte>, at: nat, data: seq<byte>, k: nat)
    requires at + |data| <= |disk| && k <= |data|
    ensures Patched(Patched(disk, at, data[..k]), at + k, data[k..]) == Patched(disk, at, data)
  {
    PatchedTwice(disk, at, data[..k], data[k..]);
    assert data[..k] + data[k..] == data;
    hide Patched;
  }

  lemma {:induction false} Within(disk: seq<byte>, start: nat, len: nat, i: nat, n: nat)
    requires start + len <= |disk| && i + n <= len
    ensures disk[start..start + len][i..i + n] == disk[start + i..start + i + n]
  {
    var (sector, part) := (disk[start..start + len], disk[start + i..start + i + n]);
    forall k | 0 <= k < n ensures sector[i..i + n][k] == part[k] {
      assert sector[i + k] == disk[start + i + k];
    }
  }

  /** A range fits exactly when both its parts do. */
  lemma {:induction false} FitsSplit(offset: int, a: nat, b: nat, size: nat)
    requires a > 0 && b > 0
    ensures Fits(offset, a + b, size) <==> Fits(offset, a, size) && Fits(offset + a, b, size)
    ensures SectorEnd(offset + a, b) == SectorEnd(offset, a + b)
  {
    EndsGrow(offset, a, a + b);
  }

  lemma {:induction false} FitsOnDisk(offset: int, count: nat, size: nat)
    requires Fits(offset, count, size) && count > 0
    ensures offset >= 0 && offset + count <= size
  {}

  /** Bytes of a request up to the first sector boundary, if it does not start on one. */
  function HeadLength(offset: int, count: nat): nat {
    var len := (512 - offset) % 512;
    if len > count then count else len
  }

  lemma {:induction false} HeadSector(offset: int, count: nat)
    ensures var len := HeadLength(offset, count);
            len <= count && (len > 0 ==> SectorEnd(offset, len) == (offset / 512 + 1) * 512) &&
            (len < count ==> (offset + len) % 512 == 0)
  {}

  /** Bytes in the whole sectors of a request that starts on a sector boundary. */
  function WholeLength(count: nat): nat { count / 512 * 512 }

  /** What is left after the whole sectors is the start of one more. */
  lemma {:induction false} Aligned(pos: int, count: nat)
    requires pos % 512 == 0
    ensures var whole := WholeLength(count);
            whole % 512 == 0 && whole <= count && (whole == 0 <==> count / 512 == 0) &&
            (pos + whole) / 512 * 512 == pos + whole &&
            (whole > 0 ==> SectorEnd(pos, whole) == (pos / 512 + count / 512) * 512) &&
            (whole < count ==> SectorEnd(pos + whole, count - whole) == ((pos + whole) / 512 + 1) * 512)
  {}

  lemma {:induction false} WholeSectors(pos: int, nb: nat)
    requires pos % 512 == 0 && nb > 0
    ensures SectorEnd(pos, nb * 512) == (pos / 512 + nb) * 512 && (pos + nb * 512) % 512 == 0
  {}

  lemma {:induction false} EndsGrow(pos: int, len: nat, count: nat)
    requires len <= count
    ensures SectorEnd(pos, len) <= SectorEnd(pos, count)
  {}

  lemma {:induction false} Joined(disk: seq<byte>, a: nat, b: nat, c: nat)
    requires a <= b <= c <= |disk|
    ensures disk[a..b] + disk[b..c] == disk[a..c]
  {}
}
