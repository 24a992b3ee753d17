/**
A write logs all that it changes: said from the disk before and the disk after it.
*/
module FsLogs {
  import opened Base
  import opened Fs
  import opened FsSpace
  import opened FsFile
  import opened FsWrite

  /** Every block whose contents changed from `d` to `d1` is in `logs`, and so is, for every block whose
      mark in the free map changed, the block itself and the block of the free map with the mark. */
  ghost predicate Covered(y: Layout, d: Disk, d1: Disk, logs: set<nat>) {
    && |d.used| == |d.blocks| == |d1.used| == |d1.blocks|
    && (forall b: nat :: b < |d.blocks| && d1.blocks[b] != d.blocks[b] ==> b in logs)
    && (forall b: nat :: b < |d.used| && d1.used[b] != d.used[b] ==> b in logs && y.bmapStart + b / BPB in logs)
  }

  lemma CoveredThen(y: Layout, d: Disk, d1: Disk, d2: Disk, a: set<nat>, b: set<nat>)
    requires Covered(y, d, d1, a) && Covered(y, d1, d2, b)
    ensures Covered(y, d, d2, a + b)
  {
  }

  lemma MapAddrCovered(y: Layout, d: Disk, i: nat, n: nat)
    requires Shaped(d) && i < |d.inodes| && n <= NDIRECT && MapAddr(d, i, n, true).Mapped?
    ensures Covered(y, d, MapAddr(d, i, n, true).d, MapAddrLogs(y, d, i, n))
  {
  }

  lemma MapEntryCovered(y: Layout, d: Disk, table: nat, j: nat)
    requires Shaped(d) && j < NINDIRECT && table < |d.blocks| && MapEntry(d, table, j, true).Mapped?
    ensures Covered(y, d, MapEntry(d, table, j, true).d, MapEntryLogs(y, d, table, j))
  {
    hide WordAt, PutWord;
  }

  lemma BmapCovered(y: Layout, d: Disk, i: nat, bn: nat)
    requires Inv(d) && i < |d.inodes| && Bmap(d, i, bn, true).Mapped?
    ensures Covered(y, d, Bmap(d, i, bn, true).d, BmapLogs(y, d, i, bn))
  {
    hide MapAddr, MapEntry, MapAddrLogs, MapEntryLogs, WordAt, ByteAt, NoLeak, Covered;
    if bn < NDIRECT {
      MapAddrCovered(y, d, i, bn);
    } else {
      var r := MapAddr(d, i, NDIRECT, true);
      MapAddrCovered(y, d, i, NDIRECT);
      MapEntryCovered(y, r.d, r.addr, bn - NDIRECT);
      CoveredThen(y, d, r.d, Bmap(d, i, bn, true).d, MapAddrLogs(y, d, i, NDIRECT), MapEntryLogs(y, r.d, r.addr, bn - NDIRECT));
    }
  }

  lemma StoreCovered(y: Layout, d: Disk, b: nat, data: Bytes)
    requires b < |d.blocks| == |d.used|
    ensures Covered(y, d, Store(d, b, data), {b})
  {
  }

  lemma CoveredMore(y: Layout, d: Disk, d1: Disk, a: set<nat>, b: set<nat>)
    requires Covered(y, d, d1, a) && a <= b
    ensures Covered(y, d, d1, b)
  {
  }

  /** The loop of `writei` logs all that it changes, and every block of its stretch. */
  lemma {:induction false} WriteCovered(y: Layout, d: Disk, i: nat, off: nat, data: Bytes)
    requires Inv(d) && i < |d.inodes| && off + |data| <= MAXBYTES && WriteFrom(d, i, off, data).Written?
    ensures Last(off, |data|) <= MAXFILE
    ensures var d1 := WriteFrom(d, i, off, data).d;
      && Inv(d1) && |d1.inodes| == |d.inodes| && Covered(y, d, d1, WriteLogs(y, d, i, off, data))
      && Touched(d1, i, off / BSIZE, Last(off, |data|)) <= WriteLogs(y, d, i, off, data)
    decreases |data|
  {
    hide Bmap, BmapLogs, NoLeak, ByteAt, Slot, SlotsUsed, SlotsDistinct, Touched, Wanted, Wrote, Filled, TableOf, WriteLogs, Covered, WriteFrom;
    if data == [] {
      NothingCovered(y, d, i, off);
    } else {
      var m := Piece(off, |data|);
      Pieces(off, |data|);
      LoopGoesOn(d, i, off, data);
      var d2 := WriteOne(d, i, off, data[..m]);
      LogsUnfold(y, d, i, off, data, d2);
      WriteCovered(y, d2, i, off + m, data[m..]);
      CoveredStep(y, d, i, off, data, d2, WriteFrom(d, i, off, data).d);
    }
  }

  lemma LoopGoesOn(d: Disk, i: nat, off: nat, data: Bytes)
    requires Shaped(d) && i < |d.inodes| && data != [] && WriteFrom(d, i, off, data).Written?
    ensures Bmap(d, i, off / BSIZE, true).Mapped?
  {
    hide Bmap, Slot;
  }

  lemma NothingCovered(y: Layout, d: Disk, i: nat, off: nat)
    requires Inv(d) && i < |d.inodes| && off <= MAXBYTES
    ensures WriteFrom(d, i, off, []) == Written(d) && Last(off, 0) <= MAXFILE
    ensures Covered(y, d, d, WriteLogs(y, d, i, off, [])) && Touched(d, i, off / BSIZE, Last(off, 0)) == {}
  {
    hide Slot;
  }

  /** One turn of the loop, and the rest of it. */
  lemma CoveredStep(y: Layout, d: Disk, i: nat, off: nat, data: Bytes, d2: Disk, d1: Disk)
    requires Inv(d) && i < |d.inodes| && data != [] && off + |data| <= MAXBYTES && Bmap(d, i, off / BSIZE, true).Mapped?
    requires var r := Bmap(d, i, off / BSIZE, true);
      && Shaped(r.d) && i < |r.d.inodes| && r.addr < |r.d.blocks| && Inv(d2) && |d2.inodes| == |d.inodes|
      && d2 == Store(r.d, r.addr, Splice(r.d.blocks[r.addr], off % BSIZE, data[..Piece(off, |data|)]))
    requires WriteFrom(d2, i, off + Piece(off, |data|), data[Piece(off, |data|)..]) == Written(d1)
    requires Inv(d1) && |d1.inodes| == |d.inodes|
    requires var m := Piece(off, |data|);
      && Last(off + m, |data| - m) <= MAXFILE && Covered(y, d2, d1, WriteLogs(y, d2, i, off + m, data[m..]))
      && Touched(d1, i, (off + m) / BSIZE, Last(off + m, |data| - m)) <= WriteLogs(y, d2, i, off + m, data[m..])
    ensures Last(off, |data|) <= MAXFILE && Covered(y, d, d1, WriteLogs(y, d, i, off, data))
    ensures Touched(d1, i, off / BSIZE, Last(off, |data|)) <= WriteLogs(y, d, i, off, data)
  {
    hide Bmap, BmapLogs, Slot, SlotsUsed, SlotsDistinct, Touched, TableOf, WriteFrom, WriteLogs, Splice, Store, Covered;
    var k, r, m := off / BSIZE, Bmap(d, i, off / BSIZE, true), Piece(off, |data|);
    var a, more := BmapLogs(y, d, i, k), WriteLogs(y, d2, i, off + m, data[m..]);
    LogsUnfold(y, d, i, off, data, d2);
    BmapCovered(y, d, i, k);
    StoreCovered(y, r.d, r.addr, Splice(r.d.blocks[r.addr], off % BSIZE, data[..m]));
    CoveredThen(y, d, r.d, d2, a, {r.addr});
    CoveredThen(y, d, d2, d1, a + {r.addr}, more);
    TableNotZero(d, i, k);
    LogsLater(d, i, off, data, d2, d1);
    TouchedFirst(d1, i, off, |data|);
  }

  lemma TableNotZero(d: Disk, i: nat, bn: nat)
    requires Inv(d) && i < |d.inodes| && bn < MAXFILE && Bmap(d, i, bn, true).Mapped?
    ensures var r := Bmap(d, i, bn, true); Shaped(r.d) && i < |r.d.inodes| && 0 !in FsWrite.TableOf(r.d, i, bn)
  {
    hide Bmap, Slot, NoLeak, ByteAt;
    BmapOk(d, i, bn, true);
    if bn >= NDIRECT { TableThere(d, i, bn, true); }
  }

  lemma TouchedFirst(d: Disk, i: nat, off: nat, n: nat)
    requires Shaped(d) && i < |d.inodes| && 0 < n && off + n <= MAXBYTES
    ensures var m := Piece(off, n);
      && Last(off, n) <= MAXFILE && Last(off + m, n - m) <= MAXFILE
      && Touched(d, i, off / BSIZE, Last(off, n)) <=
        {Slot(d, i, off / BSIZE)} + Touched(d, i, (off + m) / BSIZE, Last(off + m, n - m))
  {
    hide Slot;
    Pieces(off, n);
  }

  // ---------- writei ----------

  /** The inode itself gets a new address: a direct one, or that of the indirect block. */
  ghost predicate NewAddress(d: Disk, i: nat, lo: nat, hi: nat)
    requires Shaped(d) && i < |d.inodes|
  {
    || (exists k: nat :: lo <= k < hi && k < NDIRECT && Slot(d, i, k) == 0)
    || (Reaches(lo, hi) && Slot(d, i, MAXFILE) == 0)
  }

  lemma InodeSame(d: Disk, d1: Disk, j: nat)
    requires Shaped(d) && Shaped(d1) && j < |d.inodes| == |d1.inodes| && d1.inodes[j].size == d.inodes[j].size
    ensures d1.inodes[j] == d.inodes[j] <==>
      (forall k: nat :: k < NDIRECT ==> Slot(d1, j, k) == Slot(d, j, k)) && Slot(d1, j, MAXFILE) == Slot(d, j, MAXFILE)
  {
    if (forall k: nat :: k < NDIRECT ==> Slot(d1, j, k) == Slot(d, j, k)) && Slot(d1, j, MAXFILE) == Slot(d, j, MAXFILE) {
      forall k | 0 <= k < |d.inodes[j].addrs| ensures d1.inodes[j].addrs[k] == d.inodes[j].addrs[k] {
        if k < NDIRECT { assert Slot(d1, j, k) == Slot(d, j, k); }
      }
      assert d1.inodes[j].addrs == d.inodes[j].addrs;
    }
  }

  /** The loop changes no inode but that of the file, and that one exactly if it gets a new address. */
  lemma LoopInodes(d: Disk, i: nat, off: nat, data: Bytes)
    requires Inv(d) && i < |d.inodes| && off + |data| <= MAXBYTES && WriteFrom(d, i, off, data).Written?
    ensures var d1 := WriteFrom(d, i, off, data).d;
      && |d1.inodes| == |d.inodes| && d1.inodes[i].size == d.inodes[i].size
      && (forall j :: 0 <= j < |d.inodes| && j != i ==> d1.inodes[j] == d.inodes[j])
      && (d1.inodes[i] != d.inodes[i] <==> NewAddress(d, i, off / BSIZE, Last(off, |data|)))
  {
    hide WriteFrom, Slot, NoLeak, ByteAt, SlotsUsed, SlotsDistinct, Wanted;
    WriteFromOk(d, i, off, data);
    var d1 := WriteFrom(d, i, off, data).d;
    forall j | 0 <= j < |d.inodes| && j != i ensures d1.inodes[j] == d.inodes[j] {
      forall k: nat | k <= MAXFILE ensures Slot(d1, j, k) == Slot(d, j, k) { assert IsSlot(d, j, k); }
      InodeSame(d, d1, j);
    }
    InodeSame(d, d1, i);
  }

  /** A write logs every block it changes, every block of its stretch, every block it takes and that
      block's mark in the free map. It changes no inode but that of the file, and logs that if the file
      gets longer; else it changes it without logging exactly if the inode gets a new address. */
  lemma WriteiCovered(y: Layout, d: Disk, i: nat, off: nat, data: Bytes)
    requires Good(d) && i < |d.inodes| && Writei(d, i, off, data).Done?
    ensures Last(off, |data|) <= MAXFILE
    ensures var d1, logs := Writei(d, i, off, data).d, WriteiLogs(y, d, i, off, data);
      && Shaped(d1) && |d1.inodes| == |d.inodes|
      && Covered(y, d, d1, logs) && Touched(d1, i, off / BSIZE, Last(off, |data|)) <= logs
      && (forall j :: 0 <= j < |d.inodes| && j != i ==> d1.inodes[j] == d.inodes[j])
      && (Grows(d, i, off, data) ==> y.inodeStart + i / INODES_PER_BLOCK in logs)
      && (!Grows(d, i, off, data) ==>
            (d1.inodes[i] != d.inodes[i] <==> NewAddress(d, i, off / BSIZE, Last(off, |data|))))
  {
    hide WriteFrom, WriteLogs, Slot, NoLeak, ByteAt, SlotsUsed, SlotsDistinct, Touched, Covered, NewAddress;
    WriteCovered(y, d, i, off, data);
    LoopInodes(d, i, off, data);
    var w, d1 := WriteFrom(d, i, off, data).d, Writei(d, i, off, data).d;
    SizeOnly(y, d, w, d1, i, WriteLogs(y, d, i, off, data), WriteiLogs(y, d, i, off, data));
    TouchedSame(w, d1, i, off / BSIZE, Last(off, |data|));
  }

  lemma SizeOnly(y: Layout, d: Disk, w: Disk, d1: Disk, i: nat, a: set<nat>, b: set<nat>)
    requires Covered(y, d, w, a) && a <= b && d1.used == w.used && d1.blocks == w.blocks
    ensures Covered(y, d, d1, b)
  {
  }

  lemma TouchedSame(w: Disk, d1: Disk, i: nat, lo: nat, hi: nat)
    requires Inv(w) && i < |w.inodes| == |d1.inodes| && hi <= MAXFILE
    requires d1 == w.(inodes := w.inodes[i := w.inodes[i].(size := d1.inodes[i].size)])
    ensures Shaped(d1) && Touched(d1, i, lo, hi) == Touched(w, i, lo, hi)
  {
    hide Slot, NoLeak, ByteAt, SlotsUsed, SlotsDistinct;
    Resized(w, d1, i);
    forall k: nat | lo <= k < hi ensures Slot(d1, i, k) == Slot(w, i, k) { assert IsSlot(w, i, k); }
  }

  /** On files without holes a write that changes the inode logs it. */
  lemma InodeLogged(y: Layout, d: Disk, i: nat, off: nat, data: Bytes)
    requires Good(d) && NoHoles(d) && i < |d.inodes| && Writei(d, i, off, data).Done?
    ensures var d1 := Writei(d, i, off, data).d;
      && |d1.inodes| == |d.inodes|
      && (d1.inodes[i] != d.inodes[i] ==> y.inodeStart + i / INODES_PER_BLOCK in WriteiLogs(y, d, i, off, data))
  {
    hide Writei, WriteiLogs, Slot, NoLeak, ByteAt, SlotsUsed, SlotsDistinct, Touched, Covered;
    WriteiCovered(y, d, i, off, data);
    WriteiOk(d, i, off, data);
    if !Grows(d, i, off, data) { NoNewAddress(d, i, off, |data|); }
  }

  lemma NoNewAddress(d: Disk, i: nat, off: nat, n: nat)
    requires Inv(d) && NoHoles(d) && i < |d.inodes| && off + n <= MAXBYTES && (n == 0 || off + n <= d.inodes[i].size)
    ensures !NewAddress(d, i, off / BSIZE, Last(off, n))
  {
    var lo, hi := off / BSIZE, Last(off, n);
    forall k: nat | lo <= k < hi ensures k < MAXFILE && Slot(d, i, k) != 0 {
      StretchInside(off, n, k);
      assert IsSlot(d, i, k);
    }
    if Reaches(lo, hi) { assert Slot(d, i, hi - 1) != 0; }
  }

  /** Writing into the hole of `Hollow` gives the inode an address that is not logged. */
  lemma HollowWrite(y: Layout, data: Bytes)
    requires |data| == 1 && y == Layout(3, 2)
    ensures Writei(Hollow(), 0, 0, data).Done?
    ensures var d1 := Writei(Hollow(), 0, 0, data).d;
      |d1.inodes| == 1 && d1.inodes[0] != Hollow().inodes[0] && y.inodeStart !in WriteiLogs(y, Hollow(), 0, 0, data)
  {
    hide WriteFrom, WriteLogs, NoLeak, ByteAt, SlotsUsed, SlotsDistinct, Covered, Filled;
    var d := Hollow();
    HollowGood();
    assert Last(0, 1) == 1 && Slot(d, 0, 0) == 0 && Slot(d, 0, MAXFILE) == 0;
    assert EmptySlots(d, 0, 0, 1) == EmptySlots(d, 0, 0, 0) + 1;
    WriteiCrashes(d, 0, 0, data);
    WriteiCovered(y, d, 0, 0, data);
    HollowLogs(y, data);
  }

  lemma HollowLogs(y: Layout, data: Bytes)
    requires |data| == 1 && y == Layout(3, 2) && Inv(Hollow()) && WriteFrom(Hollow(), 0, 0, data).Written?
    ensures y.inodeStart !in WriteLogs(y, Hollow(), 0, 0, data)
  {
    hide WriteFrom, WriteLogs, NoLeak, ByteAt, SlotsUsed, SlotsDistinct, Slot;
    var d := Hollow();
    var maps := WriteLogsIn(y, d, 0, 0, data);
    WriteFromOk(d, 0, 0, data);
    var d1 := WriteFrom(d, 0, 0, data).d;
    assert IsSlot(d1, 0, 0) && IsSlot(d1, 0, MAXFILE);
    SlotBound(d1, 0, 0);
    SlotBound(d1, 0, MAXFILE);
  }
}
