/**
`readi`, `writei` and `fileread`: block by block access to a file is access to one sequence of bytes,
and exactly when a disk is too full for it, or a read meets a hole outside any operation.
*/
module FsFile {
  import opened Base
  import opened Fs
  import opened FsSpace

  const MAXBYTES := MAXFILE * BSIZE

  /** No file is longer than its addresses reach. */
  ghost predicate Good(d: Disk) { Inv(d) && forall i :: 0 <= i < |d.inodes| ==> d.inodes[i].size <= MAXBYTES }

  ghost function Contents(d: Disk, i: nat): (s: Bytes)
    requires Shaped(d) && i < |d.inodes| && d.inodes[i].size <= MAXBYTES
    ensures |s| == d.inodes[i].size && forall o :: 0 <= o < |s| ==> s[o] == ByteAt(d, i, o)
  {
    seq(d.inodes[i].size, o requires 0 <= o < d.inodes[i].size => ByteAt(d, i, o))
  }

  /** `s` with `data` over what it has from `off` on. */
  function Splice(s: Bytes, off: nat, data: Bytes): Bytes
    requires off <= |s|
  {
    s[..off] + data + if off + |data| < |s| then s[off + |data|..] else []
  }

  // ---------- one block at a time ----------

  /** How much of `n` bytes at `off` is in one block. */
  function Piece(off: nat, n: nat): nat { Min(n, BSIZE - off % BSIZE) }

  /** One past the last block of `n` bytes at `off`, or the block of `off` if there are none. */
  function Last(off: nat, n: nat): nat { if n == 0 then off / BSIZE else (off + n - 1) / BSIZE + 1 }

  function Store(d: Disk, b: nat, data: Bytes): Disk
    requires b < |d.blocks|
  {
    d.(blocks := d.blocks[b := data])
  }

  datatype Written = Written(d: Disk) | Panicked

  /** The loop of `writei`. */
  function WriteFrom(d: Disk, i: nat, off: nat, data: Bytes): Written
    requires Shaped(d) && i < |d.inodes|
    decreases |data|
  {
    if data == [] then Written(d)
    else
      match Bmap(d, i, off / BSIZE, true)
      case Panic => Panicked
      case Mapped(d1, b) =>
        var m := Piece(off, |data|);
        if !Shaped(d1) || i >= |d1.inodes| || b >= |d1.blocks| then Panicked
        else
          var d2 := Store(d1, b, Splice(d1.blocks[b], off % BSIZE, data[..m]));
          if Shaped(d2) then WriteFrom(d2, i, off + m, data[m..]) else Panicked
  }

  /** `d1` is `d` with `data` written at `off` of file `i`, and new blocks in empty slots. */
  ghost predicate Wrote(d: Disk, d1: Disk, i: nat, off: nat, data: Bytes) {
    && Inv(d) && Inv(d1) && (NoLeak(d) ==> NoLeak(d1)) && i < |d.inodes| == |d1.inodes|
    && d1.meta == d.meta && |d1.used| == |d.used|
    && (forall j :: 0 <= j < |d.inodes| ==> d1.inodes[j].size == d.inodes[j].size)
    && (forall j: nat, l: nat :: IsSlot(d, j, l) && (j != i || Slot(d, j, l) != 0) ==> Slot(d1, j, l) == Slot(d, j, l))
    && forall j: nat, o: nat :: IsByte(d, j, o) ==>
      ByteAt(d1, j, o) == if j == i && off <= o < off + |data| then data[o - off] else ByteAt(d, j, o)
  }

  lemma WroteNothing(d: Disk, d1: Disk, i: nat, off: nat)
    requires Inv(d) && i < |d.inodes| && Extends(d, d1, i)
    ensures Wrote(d, d1, i, off, [])
  {
    hide Slot, ByteAt, NoLeak;
  }

  lemma WroteThen(d: Disk, d1: Disk, d2: Disk, i: nat, off: nat, a: Bytes, b: Bytes)
    requires Wrote(d, d1, i, off, a) && Wrote(d1, d2, i, off + |a|, b)
    ensures Wrote(d, d2, i, off, a + b)
  {
    hide Slot, ByteAt, NoLeak, SlotsUsed, SlotsDistinct;
    forall j: nat, l: nat | IsSlot(d, j, l) && (j != i || Slot(d, j, l) != 0) ensures Slot(d2, j, l) == Slot(d, j, l) {
      assert IsSlot(d1, j, l);
    }
    forall j: nat, o: nat | IsByte(d, j, o)
      ensures ByteAt(d2, j, o) == if j == i && off <= o < off + |a + b| then (a + b)[o - off] else ByteAt(d, j, o)
    {
      assert IsByte(d1, j, o);
    }
  }

  /** A data block is the indirect block of no inode, so storing into it changes no slot. */
  lemma StoreSlots(d: Disk, i: nat, k: nat, data: Bytes, j: nat, l: nat)
    requires Inv(d) && IsSlot(d, i, k) && k < MAXFILE && Slot(d, i, k) != 0 && |data| == BSIZE && IsSlot(d, j, l)
    ensures Slot(d, i, k) < |d.blocks| && Shaped(Store(d, Slot(d, i, k), data))
    ensures Slot(Store(d, Slot(d, i, k), data), j, l) == Slot(d, j, l)
  {
    hide WordAt;
    assert IsSlot(d, j, MAXFILE);
    assert Slot(d, i, k) != Slot(d, j, MAXFILE);
  }

  lemma StoreWrote(d: Disk, i: nat, off: nat, data: Bytes)
    requires Inv(d) && i < |d.inodes| && off < MAXBYTES && Slot(d, i, off / BSIZE) != 0 && |data| == Piece(off, |data|)
    ensures var b := Slot(d, i, off / BSIZE);
      b < |d.blocks| && Wrote(d, Store(d, b, Splice(d.blocks[b], off % BSIZE, data)), i, off, data)
  {
    hide Slot;
    var k := off / BSIZE;
    var b := Slot(d, i, k);
    assert IsSlot(d, i, k);
    var d1 := Store(d, b, Splice(d.blocks[b], off % BSIZE, data));
    forall j: nat, l: nat | IsSlot(d, j, l) ensures Shaped(d1) && Slot(d1, j, l) == Slot(d, j, l) {
      StoreSlots(d, i, k, d1.blocks[b], j, l);
    }
    SameSlots(d, d1);
    forall j: nat, o: nat | IsByte(d, j, o)
      ensures ByteAt(d1, j, o) == if j == i && off <= o < off + |data| then data[o - off] else ByteAt(d, j, o)
    {
      assert IsSlot(d, j, o / BSIZE);
    }
  }

  lemma SameSlots(d: Disk, d1: Disk)
    requires Inv(d) && Shaped(d1) && d1.used == d.used && d1.meta == d.meta && |d1.inodes| == |d.inodes|
    requires forall j: nat, l: nat :: IsSlot(d, j, l) ==> Slot(d1, j, l) == Slot(d, j, l)
    ensures Inv(d1) && (NoLeak(d) ==> NoLeak(d1))
  {
    hide Slot;
    if NoLeak(d) {
      forall b | d1.meta <= b < |d1.used| && d1.used[b] ensures exists j: nat, l: nat :: IsSlot(d1, j, l) && Slot(d1, j, l) == b {
        var j: nat, l: nat :| IsSlot(d, j, l) && Slot(d, j, l) == b;
        assert IsSlot(d1, j, l);
      }
    }
  }

  lemma StoreFilled(d: Disk, d1: Disk, i: nat, lo: nat, hi: nat, k: nat, data: Bytes)
    requires Filled(d, d1, i, lo, hi) && Inv(d1) && k < MAXFILE && Slot(d1, i, k) != 0 && |data| == BSIZE
    ensures Slot(d1, i, k) < |d1.blocks| && Filled(d, Store(d1, Slot(d1, i, k), data), i, lo, hi)
  {
    hide Wanted;
    forall l | 0 <= l <= MAXFILE
      ensures Slot(d1, i, k) < |d1.blocks| && Shaped(Store(d1, Slot(d1, i, k), data))
      ensures Slot(Store(d1, Slot(d1, i, k), data), i, l) == Slot(d1, i, l)
    {
      assert IsSlot(d1, i, l);
      StoreSlots(d1, i, k, data, i, l);
    }
    hide Slot;
    assert Slot(Store(d1, Slot(d1, i, k), data), i, MAXFILE) == Slot(d1, i, MAXFILE);
  }

  lemma Pieces(off: nat, n: nat)
    requires 0 < n
    ensures var m := Piece(off, n);
      && 0 < m <= n && Last(off, m) == off / BSIZE + 1
      && (m < n ==> (off + m) / BSIZE == off / BSIZE + 1 && Last(off + m, n - m) == Last(off, n))
      && (m == n ==> Last(off, n) == off / BSIZE + 1)
    ensures off + n <= MAXBYTES ==> off / BSIZE < Last(off, n) <= MAXFILE
  {
  }

  /** The loop of `writei` writes its bytes, and nothing else, wherever the block borders fall; it
      panics exactly if fewer blocks are free than its stretch of the file takes. */
  lemma {:induction false} WriteFromOk(d: Disk, i: nat, off: nat, data: Bytes)
    requires Inv(d) && i < |d.inodes| && off + |data| <= MAXBYTES
    ensures Last(off, |data|) <= MAXFILE
    ensures match WriteFrom(d, i, off, data)
      case Panicked => FreeCount(d.used) < Wanted(d, i, off / BSIZE, Last(off, |data|))
      case Written(d1) => Wrote(d, d1, i, off, data) && Filled(d, d1, i, off / BSIZE, Last(off, |data|))
    decreases |data|
  {
    hide Wrote, Bmap, NoLeak, ByteAt, SlotsUsed, SlotsDistinct, Wanted, Filled, Slot;
    if data == [] {
      ExtendsSelf(d, i);
      WroteNothing(d, d, i, off);
      FilledNone(d, i, off / BSIZE);
    } else {
      var k, m := off / BSIZE, Piece(off, |data|);
      Pieces(off, |data|);
      BmapFilled(d, i, k, true);
      if Bmap(d, i, k, true).Panic? {
        WantedMore(d, i, k, k + 1, Last(off, |data|));
      } else {
        var d2 := WriteOne(d, i, off, data[..m]);
        var all := WriteFrom(d2, i, off + m, data[m..]);
        assert WriteFrom(d, i, off, data) == all;
        WriteFromOk(d2, i, off + m, data[m..]);
        assert data[..m] + data[m..] == data;
        WriteMore(d, d2, i, off, data[..m], data[m..], all);
      }
    }
  }

  /** From what the rest of the loop does to what all of it does. */
  lemma WriteMore(d: Disk, d2: Disk, i: nat, off: nat, a: Bytes, b: Bytes, r: Written)
    requires Inv(d) && Inv(d2) && i < |d.inodes| == |d2.inodes| && off + |a + b| <= MAXBYTES
    requires 0 < |a| == Piece(off, |a + b|) && Wrote(d, d2, i, off, a) && Filled(d, d2, i, off / BSIZE, off / BSIZE + 1)
    requires Last(off + |a|, |b|) <= MAXFILE
    requires match r
      case Panicked => FreeCount(d2.used) < Wanted(d2, i, (off + |a|) / BSIZE, Last(off + |a|, |b|))
      case Written(d1) => Wrote(d2, d1, i, off + |a|, b) && Filled(d2, d1, i, (off + |a|) / BSIZE, Last(off + |a|, |b|))
    requires b == [] ==> r == Written(d2)
    ensures Last(off, |a + b|) <= MAXFILE
    ensures match r
      case Panicked => FreeCount(d.used) < Wanted(d, i, off / BSIZE, Last(off, |a + b|))
      case Written(d1) => Wrote(d, d1, i, off, a + b) && Filled(d, d1, i, off / BSIZE, Last(off, |a + b|))
  {
    hide Wrote, NoLeak, ByteAt, SlotsUsed, SlotsDistinct, Wanted, Filled, Slot;
    var k := off / BSIZE;
    Pieces(off, |a + b|);
    if b == [] {
      assert a + b == a;
    } else {
      WantedThen(d, d2, i, k, k + 1, k + 1, Last(off, |a + b|));
      FilledFacts(d, d2, i, k, k + 1);
      if r.Written? {
        WroteThen(d, d2, r.d, i, off, a, b);
        FilledThen(d, d2, r.d, i, k, k + 1, k + 1, Last(off, |a + b|));
      }
    }
  }

  /** One turn of the loop. */
  lemma WriteOne(d: Disk, i: nat, off: nat, data: Bytes) returns (d2: Disk)
    requires Inv(d) && i < |d.inodes| && off + |data| <= MAXBYTES && 0 < |data| == Piece(off, |data|)
    requires Bmap(d, i, off / BSIZE, true).Mapped?
    ensures var r := Bmap(d, i, off / BSIZE, true);
      && Shaped(r.d) && i < |r.d.inodes| && r.addr < |r.d.blocks|
      && d2 == Store(r.d, r.addr, Splice(r.d.blocks[r.addr], off % BSIZE, data))
    ensures Inv(d2) && |d2.inodes| == |d.inodes| && |d2.used| == |d.used| && Wrote(d, d2, i, off, data)
    ensures Filled(d, d2, i, off / BSIZE, off / BSIZE + 1)
  {
    hide Wrote, Bmap, NoLeak, ByteAt, SlotsUsed, SlotsDistinct, Wanted, Filled, Slot;
    var k := off / BSIZE;
    var r := Bmap(d, i, k, true);
    BmapOk(d, i, k, true);
    BmapFilled(d, i, k, true);
    WroteNothing(d, r.d, i, off);
    StoreWrote(r.d, i, off, data);
    d2 := Store(r.d, r.addr, Splice(r.d.blocks[r.addr], off % BSIZE, data));
    WroteThen(d, r.d, d2, i, off, [], data);
    assert [] + data == data;
    WroteInv(r.d, d2, i, off, data);
    StoreFilled(d, r.d, i, k, k + 1, k, d2.blocks[r.addr]);
  }

  lemma FilledFacts(d: Disk, d1: Disk, i: nat, lo: nat, hi: nat)
    requires Filled(d, d1, i, lo, hi)
    ensures FreeCount(d1.used) + Wanted(d, i, lo, hi) == FreeCount(d.used)
  {
  }

  lemma WantedMore(d: Disk, i: nat, lo: nat, mid: nat, hi: nat)
    requires Shaped(d) && i < |d.inodes| && lo <= mid <= hi <= MAXFILE
    ensures Wanted(d, i, lo, mid) <= Wanted(d, i, lo, hi)
  {
    EmptySplit(d, i, lo, mid, hi);
  }

  lemma WroteInv(d: Disk, d1: Disk, i: nat, off: nat, data: Bytes)
    requires Wrote(d, d1, i, off, data)
    ensures Inv(d1) && |d1.inodes| == |d.inodes|
  {
  }

  // ---------- writei ----------

  datatype Result = Done(d: Disk, n: nat) | Refused | Crashed

  /** `writei` on a file; the request is refused if it starts behind the end, wraps around in 32 bits
      or is too long for the file. */
  function Writei(d: Disk, i: nat, off: nat, data: Bytes): Result
    requires Shaped(d) && i < |d.inodes|
  {
    if off > d.inodes[i].size || off + |data| >= WORD || off + |data| > MAXBYTES then Refused
    else
      match WriteFrom(d, i, off, data)
      case Panicked => Crashed
      case Written(d1) =>
        if data != [] && i < |d1.inodes| && off + |data| > d1.inodes[i].size
        then Done(d1.(inodes := d1.inodes[i := d1.inodes[i].(size := off + |data|)]), |data|)
        else Done(d1, |data|)
  }

  /** Every block that a file's size reaches is there. */
  ghost predicate NoHoles(d: Disk)
    requires Shaped(d)
  {
    forall i: nat, k: nat :: IsSlot(d, i, k) && k < MAXFILE && k * BSIZE < d.inodes[i].size ==> Slot(d, i, k) != 0
  }

  /** File `i` of `d1` is that of `d` with the data spliced in; all other files are as they were, and
      the blocks are those it takes. */
  ghost predicate WroteFile(d: Disk, d1: Disk, i: nat, off: nat, data: Bytes) { Whole(WroteFileFacts(d, d1, i, off, data)) }

  ghost predicate WroteFileFacts(d: Disk, d1: Disk, i: nat, off: nat, data: Bytes) {
    && Good(d) && Good(d1) && i < |d.inodes| == |d1.inodes| && off <= d.inodes[i].size && off + |data| <= MAXBYTES
    && (NoLeak(d) ==> NoLeak(d1)) && (NoHoles(d) ==> NoHoles(d1))
    && Contents(d1, i) == Splice(Contents(d, i), off, data)
    && (forall j :: 0 <= j < |d.inodes| && j != i ==> Contents(d1, j) == Contents(d, j))
    && Last(off, |data|) <= MAXFILE && Filled(d, d1, i, off / BSIZE, Last(off, |data|))
  }

  /** `writei` is refused if and only if it starts behind the end or ends behind the largest file; it
      panics if and only if it is not refused and fewer blocks are free than its stretch takes; else
      the file is the old one with the data spliced in, and nothing else changes. */
  lemma WriteiOk(d: Disk, i: nat, off: nat, data: Bytes)
    requires Good(d) && i < |d.inodes|
    ensures match Writei(d, i, off, data)
      case Refused => off > d.inodes[i].size || off + |data| > MAXBYTES
      case Crashed =>
        && off <= d.inodes[i].size && off + |data| <= MAXBYTES && Last(off, |data|) <= MAXFILE
        && FreeCount(d.used) < Wanted(d, i, off / BSIZE, Last(off, |data|))
      case Done(d1, n) => n == |data| && WroteFile(d, d1, i, off, data)
  {
    hide WriteFrom, Slot, NoLeak, NoHoles, SlotsUsed, SlotsDistinct, Wrote, Filled, Wanted, Contents, Splice;
    if off <= d.inodes[i].size && off + |data| <= MAXBYTES {
      WriteFromOk(d, i, off, data);
      match WriteFrom(d, i, off, data)
      case Panicked =>
      case Written(d1) =>
        WroteInv(d, d1, i, off, data);
        WrittenFile(d, d1, Writei(d, i, off, data).d, i, off, data);
    }
  }

  /** When `writei` panics, said from the call alone. */
  lemma WriteiCrashes(d: Disk, i: nat, off: nat, data: Bytes)
    requires Good(d) && i < |d.inodes|
    ensures Writei(d, i, off, data).Crashed? <==>
      && off <= d.inodes[i].size && off + |data| <= MAXBYTES && Last(off, |data|) <= MAXFILE
      && FreeCount(d.used) < Wanted(d, i, off / BSIZE, Last(off, |data|))
  {
    hide Writei, Slot, NoLeak, NoHoles, SlotsUsed, SlotsDistinct, Filled, Wanted, Contents, Splice;
    WriteiOk(d, i, off, data);
    var r := Writei(d, i, off, data);
    if r.Done? { FilledFacts(d, r.d, i, off / BSIZE, Last(off, |data|)); }
  }

  lemma WrittenFile(d: Disk, d1: Disk, d2: Disk, i: nat, off: nat, data: Bytes)
    requires Good(d) && i < |d.inodes| == |d1.inodes| && off <= d.inodes[i].size && off + |data| <= MAXBYTES
    requires Wrote(d, d1, i, off, data) && Last(off, |data|) <= MAXFILE && Filled(d, d1, i, off / BSIZE, Last(off, |data|))
    requires d2 == if data != [] && off + |data| > d1.inodes[i].size
      then d1.(inodes := d1.inodes[i := d1.inodes[i].(size := off + |data|)]) else d1
    ensures WroteFile(d, d2, i, off, data)
  {
    hide Slot, NoLeak, NoHoles, SlotsUsed, SlotsDistinct, Contents, Splice, Filled;
    Resized(d1, d2, i);
    WrittenBytes(d, d1, d2, i, off, data);
    ResizedFilled(d, d1, d2, i, off / BSIZE, Last(off, |data|));
    if NoHoles(d) { WrittenHoles(d, d1, d2, i, off, data); }
  }

  lemma WrittenBytes(d: Disk, d1: Disk, d2: Disk, i: nat, off: nat, data: Bytes)
    requires Good(d) && Shaped(d1) && Shaped(d2) && i < |d.inodes| == |d1.inodes| == |d2.inodes|
    requires off <= d.inodes[i].size && off + |data| <= MAXBYTES && Wrote(d, d1, i, off, data)
    requires forall j :: 0 <= j < |d.inodes| ==>
      d2.inodes[j].size == if j == i then Max(d.inodes[i].size, off + |data|) else d.inodes[j].size
    requires forall j: nat, o: nat :: IsByte(d1, j, o) ==> ByteAt(d2, j, o) == ByteAt(d1, j, o)
    ensures forall j :: 0 <= j < |d.inodes| ==> d2.inodes[j].size <= MAXBYTES
    ensures Contents(d2, i) == Splice(Contents(d, i), off, data)
    ensures forall j :: 0 <= j < |d.inodes| && j != i ==> Contents(d2, j) == Contents(d, j)
  {
    hide ByteAt, Slot, NoLeak, SlotsUsed, SlotsDistinct;
    forall o | 0 <= o < |Contents(d2, i)| ensures Contents(d2, i)[o] == Splice(Contents(d, i), off, data)[o] {
      assert IsByte(d, i, o) && IsByte(d1, i, o);
    }
    assert Contents(d2, i) == Splice(Contents(d, i), off, data);
    forall j | 0 <= j < |d.inodes| && j != i ensures Contents(d2, j) == Contents(d, j) {
      forall o | 0 <= o < |Contents(d, j)| ensures Contents(d2, j)[o] == Contents(d, j)[o] {
        assert IsByte(d, j, o) && IsByte(d1, j, o);
      }
    }
  }

  /** The blocks up to the new end are there: those up to the old end were, the others are in the
      stretch that was filled. */
  lemma WrittenHoles(d: Disk, d1: Disk, d2: Disk, i: nat, off: nat, data: Bytes)
    requires Inv(d) && NoHoles(d) && Wrote(d, d1, i, off, data) && off <= d.inodes[i].size
    requires Last(off, |data|) <= MAXFILE && Filled(d, d1, i, off / BSIZE, Last(off, |data|))
    requires Shaped(d2) && |d2.inodes| == |d.inodes|
    requires forall j :: 0 <= j < |d.inodes| ==>
      d2.inodes[j].size == if j == i then Max(d.inodes[i].size, off + |data|) else d.inodes[j].size
    requires forall j: nat, l: nat :: IsSlot(d1, j, l) ==> Slot(d2, j, l) == Slot(d1, j, l)
    ensures NoHoles(d2)
  {
    hide Slot, NoLeak, SlotsUsed, SlotsDistinct, ByteAt;
    forall j: nat, k: nat | IsSlot(d2, j, k) && k < MAXFILE && k * BSIZE < d2.inodes[j].size ensures Slot(d2, j, k) != 0 {
      assert IsSlot(d, j, k) && IsSlot(d1, j, k);
      if j == i && k * BSIZE >= d.inodes[i].size {
        InStretch(off, |data|, k);
      }
    }
  }

  lemma InStretch(off: nat, n: nat, k: nat)
    requires off <= k * BSIZE < off + n
    ensures off / BSIZE <= k < Last(off, n)
  {
  }

  lemma ResizedFilled(d: Disk, d1: Disk, d2: Disk, i: nat, lo: nat, hi: nat)
    requires Filled(d, d1, i, lo, hi) && Shaped(d2) && |d2.inodes| == |d1.inodes| && d2.used == d1.used
    requires forall j: nat, l: nat :: IsSlot(d1, j, l) ==> Slot(d2, j, l) == Slot(d1, j, l)
    ensures Filled(d, d2, i, lo, hi)
  {
    hide Slot, Wanted;
    assert forall l: nat :: l <= MAXFILE ==> IsSlot(d1, i, l);
  }

  /** The size of an inode plays no part in its addresses and bytes. */
  lemma Resized(d: Disk, d1: Disk, i: nat)
    requires Inv(d) && i < |d.inodes| == |d1.inodes|
    requires d1 == d.(inodes := d.inodes[i := d.inodes[i].(size := d1.inodes[i].size)])
    ensures Inv(d1) && (NoLeak(d) ==> NoLeak(d1))
    ensures forall j: nat, o: nat :: IsByte(d, j, o) ==> ByteAt(d1, j, o) == ByteAt(d, j, o)
    ensures forall j: nat, l: nat :: IsSlot(d, j, l) ==> Slot(d1, j, l) == Slot(d, j, l)
  {
    hide WordAt;
    forall j: nat, l: nat | IsSlot(d, j, l) ensures Slot(d1, j, l) == Slot(d, j, l) { }
    SameSlots(d, d1);
  }

  // ---------- readi ----------

  datatype Read = Read(d: Disk, bytes: Bytes) | ReadPanicked

  /** The loop of `readi`, which goes through `bmap` as well: reading where there is no block makes one,
      and panics if no operation is under way. */
  function ReadFrom(d: Disk, i: nat, off: nat, n: nat, op: bool): Read
    requires Shaped(d) && i < |d.inodes|
    decreases n
  {
    if n == 0 then Read(d, [])
    else
      match Bmap(d, i, off / BSIZE, op)
      case Panic => ReadPanicked
      case Mapped(d1, b) =>
        var m := Piece(off, n);
        if !Shaped(d1) || i >= |d1.inodes| || b >= |d1.blocks| then ReadPanicked
        else
          match ReadFrom(d1, i, off + m, n - m, op)
          case ReadPanicked => ReadPanicked
          case Read(d2, rest) => Read(d2, PieceOf(d1.blocks[b], off, n) + rest)
  }

  lemma InPiece(off: nat, n: nat, o: nat)
    requires o < Piece(off, n)
    ensures (off + o) / BSIZE == off / BSIZE && (off + o) % BSIZE == off % BSIZE + o
  {
  }

  /** `bytes` is what inode `i` has from `off` on. */
  ghost predicate BytesAt(d: Disk, i: nat, off: nat, bytes: Bytes) {
    && Shaped(d) && i < |d.inodes| && off + |bytes| <= MAXBYTES
    && forall o :: 0 <= o < |bytes| ==> bytes[o] == ByteAt(d, i, off + o)
  }

  /** The piece that one turn of the loop of `readi` copies. */
  function PieceOf(b: Bytes, off: nat, n: nat): (r: Bytes)
    requires |b| == BSIZE
    ensures |r| == Piece(off, n)
  {
    b[off % BSIZE..off % BSIZE + Piece(off, n)]
  }

  /** The loop of `readi` gives the bytes of the file; it panics exactly if fewer blocks are free than
      its stretch of the file takes, or it takes some and no operation is under way. */
  lemma {:induction false} ReadFromOk(d: Disk, i: nat, off: nat, n: nat, op: bool)
    requires Inv(d) && i < |d.inodes| && off + n <= MAXBYTES
    ensures Last(off, n) <= MAXFILE
    ensures match ReadFrom(d, i, off, n, op)
      case ReadPanicked => Short(d.used, Wanted(d, i, off / BSIZE, Last(off, n)), op)
      case Read(d1, bytes) =>
        && Extends(d, d1, i) && Filled(d, d1, i, off / BSIZE, Last(off, n))
        && !Short(d.used, Wanted(d, i, off / BSIZE, Last(off, n)), op)
        && |bytes| == n && BytesAt(d, i, off, bytes)
    decreases n
  {
    hide Bmap, NoLeak, SlotsUsed, SlotsDistinct, Slot, Wanted, Filled, ByteAt, Extends;
    if n == 0 {
      ExtendsSelf(d, i);
      FilledNone(d, i, off / BSIZE);
    } else {
      var k, m := off / BSIZE, Piece(off, n);
      Pieces(off, n);
      BmapFilled(d, i, k, op);
      if Bmap(d, i, k, op).Panic? {
        WantedMore(d, i, k, k + 1, Last(off, n));
      } else {
        ReadOne(d, i, off, n, op);
        ReadFromOk(Bmap(d, i, k, op).d, i, off + m, n - m, op);
        ReadMore(d, i, off, n, op);
      }
    }
  }

  /** From what the rest of the loop does to what all of it does. */
  lemma ReadMore(d: Disk, i: nat, off: nat, n: nat, op: bool)
    requires Inv(d) && i < |d.inodes| && 0 < n && off + n <= MAXBYTES && Bmap(d, i, off / BSIZE, op).Mapped?
    requires var r, m := Bmap(d, i, off / BSIZE, op), Piece(off, n);
      && Inv(r.d) && |r.d.inodes| == |d.inodes| && r.addr < |r.d.blocks| && Extends(d, r.d, i)
      && BytesAt(d, i, off, PieceOf(r.d.blocks[r.addr], off, n))
      && Last(off + m, n - m) <= MAXFILE
      && match ReadFrom(r.d, i, off + m, n - m, op)
        case ReadPanicked => Short(r.d.used, Wanted(r.d, i, (off + m) / BSIZE, Last(off + m, n - m)), op)
        case Read(d1, bytes) =>
          && !Short(r.d.used, Wanted(r.d, i, (off + m) / BSIZE, Last(off + m, n - m)), op)
          && Extends(r.d, d1, i) && Filled(r.d, d1, i, (off + m) / BSIZE, Last(off + m, n - m))
          && |bytes| == n - m && BytesAt(r.d, i, off + m, bytes)
    ensures Last(off, n) <= MAXFILE
    ensures match ReadFrom(d, i, off, n, op)
      case ReadPanicked => Short(d.used, Wanted(d, i, off / BSIZE, Last(off, n)), op)
      case Read(d1, bytes) =>
        && Extends(d, d1, i) && Filled(d, d1, i, off / BSIZE, Last(off, n))
        && !Short(d.used, Wanted(d, i, off / BSIZE, Last(off, n)), op)
        && |bytes| == n && BytesAt(d, i, off, bytes)
  {
    hide Bmap, NoLeak, SlotsUsed, SlotsDistinct, Slot, Wanted, Filled, ByteAt, Extends;
    var k, r, m := off / BSIZE, Bmap(d, i, off / BSIZE, op), Piece(off, n);
    Pieces(off, n);
    BmapFilled(d, i, k, op);
    var rest := ReadFrom(r.d, i, off + m, n - m, op);
    if m < n {
      WantedThen(d, r.d, i, k, k + 1, k + 1, Last(off, n));
      FilledFacts(d, r.d, i, k, k + 1);
      if rest.Read? { FilledThen(d, r.d, rest.d, i, k, k + 1, k + 1, Last(off, n)); }
    }
    if rest.Read? {
      ExtendsTransitive(d, r.d, rest.d, i);
      BytesThen(d, r.d, i, off, PieceOf(r.d.blocks[r.addr], off, n), rest.bytes);
    }
  }

  lemma BytesThen(d: Disk, d1: Disk, i: nat, off: nat, a: Bytes, b: Bytes)
    requires BytesAt(d, i, off, a) && Extends(d, d1, i) && BytesAt(d1, i, off + |a|, b)
    ensures BytesAt(d, i, off, a + b)
  {
    hide ByteAt, Slot, NoLeak;
    forall o | 0 <= o < |a + b| ensures (a + b)[o] == ByteAt(d, i, off + o) {
      assert IsByte(d, i, off + o);
      if o >= |a| { assert b[o - |a|] == ByteAt(d1, i, off + |a| + (o - |a|)); }
    }
  }

  /** One turn of the loop. */
  lemma ReadOne(d: Disk, i: nat, off: nat, n: nat, op: bool)
    requires Inv(d) && i < |d.inodes| && 0 < n && off + n <= MAXBYTES && Bmap(d, i, off / BSIZE, op).Mapped?
    ensures var r := Bmap(d, i, off / BSIZE, op);
      && Inv(r.d) && |r.d.inodes| == |d.inodes| && r.addr < |r.d.blocks| && Extends(d, r.d, i)
      && BytesAt(d, i, off, PieceOf(r.d.blocks[r.addr], off, n))
  {
    hide Bmap, NoLeak, SlotsUsed, SlotsDistinct, Slot;
    BmapOk(d, i, off / BSIZE, op);
    var r, m := Bmap(d, i, off / BSIZE, op), Piece(off, n);
    assert IsSlot(r.d, i, off / BSIZE);
    SlotBound(r.d, i, off / BSIZE);
    var piece := PieceOf(r.d.blocks[r.addr], off, n);
    forall o | 0 <= o < m ensures piece[o] == ByteAt(d, i, off + o) {
      assert IsByte(d, i, off + o);
      InPiece(off, n, o);
    }
  }

  lemma SlotBound(d: Disk, i: nat, k: nat)
    requires Inv(d) && IsSlot(d, i, k)
    ensures Slot(d, i, k) < |d.blocks|
  {
  }

  datatype ReadResult = Gave(d: Disk, bytes: Bytes) | ReadRefused | ReadCrashed

  function Readi(d: Disk, i: nat, off: nat, n: nat, op: bool): ReadResult
    requires Shaped(d) && i < |d.inodes|
  {
    var size := d.inodes[i].size;
    if off > size || off + n >= WORD then ReadRefused
    else
      match ReadFrom(d, i, off, if off + n > size then size - off else n, op)
      case ReadPanicked => ReadCrashed
      case Read(d1, bytes) => Gave(d1, bytes)
  }

  /** The last byte a read gives, and one. */
  function EndOf(d: Disk, i: nat, off: nat, n: nat): nat
    requires i < |d.inodes|
  {
    Min(off + n, d.inodes[i].size)
  }

  /** The blocks that a read lacks: what it takes to fill the holes it meets. */
  function Lacks(d: Disk, i: nat, off: nat, n: nat): nat
    requires Shaped(d) && i < |d.inodes| && off <= d.inodes[i].size <= MAXBYTES
  {
    LastBound(off, EndOf(d, i, off, n) - off);
    Wanted(d, i, off / BSIZE, Last(off, EndOf(d, i, off, n) - off))
  }

  lemma LastBound(off: nat, n: nat)
    requires off + n <= MAXBYTES
    ensures off / BSIZE <= Last(off, n) <= MAXFILE
  {
  }

  /** `readi` is refused if and only if it starts behind the end or wraps around in 32 bits; it panics
      if and only if it is not refused and meets holes that it cannot fill, for want of blocks or of an
      operation under way; else it gives the bytes from `off` on, as many as asked for and as there
      are, every file stays, and exactly the blocks it lacked are taken. */
  lemma ReadiOk(d: Disk, i: nat, off: nat, n: nat, op: bool)
    requires Good(d) && i < |d.inodes|
    ensures match Readi(d, i, off, n, op)
      case ReadRefused => off > d.inodes[i].size || off + n >= WORD
      case ReadCrashed =>
        off <= d.inodes[i].size && off + n < WORD && Short(d.used, Lacks(d, i, off, n), op)
      case Gave(d1, bytes) =>
        && off <= d.inodes[i].size && off + n < WORD && !Short(d.used, Lacks(d, i, off, n), op)
        && bytes == Contents(d, i)[off..EndOf(d, i, off, n)] && Good(d1) && Extends(d, d1, i)
        && Filled(d, d1, i, off / BSIZE, Last(off, EndOf(d, i, off, n) - off))
  {
    hide ReadFrom, Slot, NoLeak, SlotsUsed, SlotsDistinct, Wanted, Filled;
    if off <= d.inodes[i].size && off + n < WORD { ReadFromOk(d, i, off, EndOf(d, i, off, n) - off, op); }
  }

  /** When `readi` panics, said from the call alone. */
  lemma ReadiCrashes(d: Disk, i: nat, off: nat, n: nat, op: bool)
    requires Good(d) && i < |d.inodes|
    ensures Readi(d, i, off, n, op) == ReadCrashed <==>
      off <= d.inodes[i].size && off + n < WORD && Short(d.used, Lacks(d, i, off, n), op)
  {
    hide Readi, Slot, NoLeak, SlotsUsed, SlotsDistinct, Lacks, Filled, Contents, Extends;
    ReadiOk(d, i, off, n, op);
  }

  lemma {:induction false} ReadFromThere(d: Disk, i: nat, off: nat, n: nat, op: bool)
    requires Inv(d) && i < |d.inodes| && off + n <= MAXBYTES && Last(off, n) <= MAXFILE
    requires forall k :: off / BSIZE <= k < Last(off, n) ==> Slot(d, i, k) != 0
    ensures ReadFrom(d, i, off, n, op).Read? && ReadFrom(d, i, off, n, op).d == d
    decreases n
  {
    hide Bmap, NoLeak, SlotsUsed, SlotsDistinct, Slot;
    if n == 0 {
    } else {
      var k, m := off / BSIZE, Piece(off, n);
      Pieces(off, n);
      BmapThere(d, i, k, op);
      assert IsSlot(d, i, k);
      SlotBound(d, i, k);
      if m == n { assert ReadFrom(d, i, off + m, n - m, op) == Read(d, []); } else { ReadFromThere(d, i, off + m, n - m, op); }
    }
  }

  /** A read that gives bytes leaves the disk as it is exactly if it meets no hole. */
  lemma ReadiUnchanged(d: Disk, i: nat, off: nat, n: nat, op: bool)
    requires Good(d) && i < |d.inodes| && Readi(d, i, off, n, op).Gave?
    ensures off <= d.inodes[i].size && (Readi(d, i, off, n, op).d == d <==> Lacks(d, i, off, n) == 0)
  {
    hide ReadFrom, Slot, NoLeak, SlotsUsed, SlotsDistinct, Filled, Contents, Extends, Wanted;
    ReadiOk(d, i, off, n, op);
    var m := EndOf(d, i, off, n) - off;
    FilledFacts(d, Readi(d, i, off, n, op).d, i, off / BSIZE, Last(off, m));
    if Lacks(d, i, off, n) == 0 {
      NoneEmpty(d, i, off / BSIZE, Last(off, m));
      ReadFromThere(d, i, off, m, op);
    }
  }

  lemma {:induction false} NoneEmpty(d: Disk, i: nat, lo: nat, hi: nat)
    requires Shaped(d) && i < |d.inodes| && hi <= MAXFILE && Wanted(d, i, lo, hi) == 0
    ensures forall k :: lo <= k < hi ==> Slot(d, i, k) != 0
    decreases hi
  {
    hide Slot;
    if lo >= hi {
    } else {
      NoneEmpty(d, i, lo, hi - 1);
    }
  }

  /** A disk with a file of one byte that has no block. */
  function Hollow(): Disk { Disk(1, [true, false], [Zeros(), Zeros()], [Inode(NoAddrs(), 1)]) }

  /** Reading that byte takes the free block if some operation is under way, and panics if none is. */
  lemma HollowRead()
    ensures Good(Hollow()) && !NoHoles(Hollow())
    ensures Readi(Hollow(), 0, 0, 1, true).Gave? && Readi(Hollow(), 0, 0, 1, true).d != Hollow()
    ensures Readi(Hollow(), 0, 0, 1, false) == ReadCrashed
  {
    HollowGood();
    hide Readi;
    ReadiOk(Hollow(), 0, 0, 1, true);
    ReadiCrashes(Hollow(), 0, 0, 1, false);
    ReadiCrashes(Hollow(), 0, 0, 1, true);
    ReadiUnchanged(Hollow(), 0, 0, 1, true);
  }

  lemma HollowGood()
    ensures Good(Hollow()) && !NoHoles(Hollow()) && FreeCount(Hollow().used) == 1 && Lacks(Hollow(), 0, 0, 1) == 1
  {
    var d := Hollow();
    assert IsSlot(d, 0, 0) && Slot(d, 0, 0) == 0;
    assert FreeCount(d.used) == FreeCount(d.used[1..]) && FreeCount(d.used[1..]) == 1 + FreeCount(d.used[1..][1..]);
    assert Last(0, 1) == 1 && EmptySlots(d, 0, 0, 1) == EmptySlots(d, 0, 0, 0) + 1;
  }

  /** On a disk without holes, and `writei` and `itrunc` leave none, a read within a file never panics
      and changes nothing: it gives exactly the bytes of the file. */
  lemma ReadiExact(d: Disk, i: nat, off: nat, n: nat, op: bool)
    requires Good(d) && NoHoles(d) && i < |d.inodes|
    ensures Readi(d, i, off, n, op) ==
      if off > d.inodes[i].size || off + n >= WORD then ReadRefused
      else Gave(d, Contents(d, i)[off..EndOf(d, i, off, n)])
  {
    hide ReadFrom, Slot, NoLeak, SlotsUsed, SlotsDistinct, Wanted, Filled, Contents, Extends;
    ReadiOk(d, i, off, n, op);
    if off <= d.inodes[i].size && off + n < WORD {
      var m := EndOf(d, i, off, n) - off;
      forall k | off / BSIZE <= k < Last(off, m) ensures k < MAXFILE && Slot(d, i, k) != 0 {
        StretchInside(off, m, k);
        assert IsSlot(d, i, k);
      }
      ReadFromThere(d, i, off, m, op);
    }
  }

  lemma StretchInside(off: nat, n: nat, k: nat)
    requires off + n <= MAXBYTES && off / BSIZE <= k < Last(off, n)
    ensures k < MAXFILE && k * BSIZE < off + n
  {
  }

  lemma TruncatedHoles(d: Disk, i: nat)
    requires Inv(d) && NoHoles(d) && i < |d.inodes|
    ensures Inv(Truncated(d, i)) && NoHoles(Truncated(d, i))
  {
    hide Slot, Unmarked, NoLeak, SlotsUsed, SlotsDistinct, ByteAt;
    TruncatedOk(d, i);
    forall j: nat, k: nat | IsSlot(d, j, k) ensures Slot(Truncated(d, i), j, k) == if j == i then 0 else Slot(d, j, k) {
      TruncatedSlots(d, i, j, k);
    }
    forall j: nat, k: nat | IsSlot(Truncated(d, i), j, k) && k < MAXFILE && k * BSIZE < Truncated(d, i).inodes[j].size
      ensures Slot(Truncated(d, i), j, k) != 0
    {
      assert IsSlot(d, j, k);
    }
  }

  /** Reading back what was written gives it. */
  lemma WriteThenRead(d: Disk, i: nat, off: nat, data: Bytes, op: bool)
    requires Good(d) && NoHoles(d) && i < |d.inodes| && Writei(d, i, off, data).Done?
    ensures var d1 := Writei(d, i, off, data).d;
      Good(d1) && NoHoles(d1) && i < |d1.inodes| && Readi(d1, i, off, |data|, op) == Gave(d1, data)
  {
    hide Writei, Readi, ByteAt, NoLeak, NoHoles, SlotsUsed, SlotsDistinct, Filled;
    WriteiOk(d, i, off, data);
    ReadiExact(Writei(d, i, off, data).d, i, off, |data|, op);
  }

  // ---------- fileread ----------

  /** `fileread` of a file at offset `off`: what `readi` gives, and the offset it leaves. It begins no
      operation; `op` says that somebody else's is under way. */
  function FileRead(d: Disk, i: nat, off: nat, n: nat, op: bool): (ReadResult, nat)
    requires Shaped(d) && i < |d.inodes|
  {
    var r := Readi(d, i, off, n, op);
    (r, if r.Gave? then off + |r.bytes| else off)
  }

  /** `fileread` panics if and only if the read is not refused and lacks blocks while no operation is
      under way, or more than are free; else the offset moves by the bytes it gives. With no operation
      under way it changes nothing. */
  lemma FileReadOk(d: Disk, i: nat, off: nat, n: nat, op: bool)
    requires Good(d) && i < |d.inodes|
    ensures var (r, off1) := FileRead(d, i, off, n, op);
      && (r == ReadRefused <==> off > d.inodes[i].size || off + n >= WORD)
      && (r == ReadCrashed <==>
           && off <= d.inodes[i].size && off + n < WORD
           && ((0 < Lacks(d, i, off, n) && !op) || FreeCount(d.used) < Lacks(d, i, off, n)))
      && (r.Gave? ==> off1 == EndOf(d, i, off, n) && off <= off1 && r.bytes == Contents(d, i)[off..off1] && (!op ==> r.d == d))
      && (!r.Gave? ==> off1 == off)
  {
    hide Readi, Slot, NoLeak, SlotsUsed, SlotsDistinct, Lacks, Filled, Contents, Extends;
    ReadiOk(d, i, off, n, op);
    if Readi(d, i, off, n, op).Gave? { ReadiUnchanged(d, i, off, n, op); }
  }

  /** On files without holes, reads in a row give consecutive bytes, up to the end. */
  lemma FileReadTwice(d: Disk, i: nat, off: nat, n: nat, m: nat, op: bool)
    requires Good(d) && NoHoles(d) && i < |d.inodes| && off <= d.inodes[i].size && off + n + m < WORD
    ensures var (r, off1) := FileRead(d, i, off, n, op);
      && off1 <= d.inodes[i].size
      && var (r2, off2) := FileRead(d, i, off1, m, op);
      && r.Gave? && r2.Gave? && FileRead(d, i, off, n + m, op) == (Gave(d, r.bytes + r2.bytes), off2)
  {
    hide Readi, Slot, NoLeak, SlotsUsed, SlotsDistinct, NoHoles;
    ReadiExact(d, i, off, n, op);
    ReadiExact(d, i, EndOf(d, i, off, n), m, op);
    ReadiExact(d, i, off, n + m, op);
    var all, e1, e2 := Contents(d, i), EndOf(d, i, off, n), EndOf(d, i, off, n + m);
    assert e2 == EndOf(d, i, e1, m) && all[off..e1] + all[e1..e2] == all[off..e2];
  }
}
