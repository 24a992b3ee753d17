/**
`filewrite`: a write in chunks, each a transaction that stays within the size that the log allows
for; what the chunks write together, and exactly when it is less than asked for.
*/
module FsWrite {
  import opened Base
  import opened Fs
  import opened FsSpace
  import opened FsFile

  // ---------- what a write logs ----------

  /** Where the free map and the inodes begin on the disk. */
  datatype Layout = Layout(bmapStart: nat, inodeStart: nat)

  /** Bits in a block of the free map. */
  const BPB := 8 * BSIZE
  const INODES_PER_BLOCK := 8
  const MAXOPBLOCKS := 10
  /** The most that `filewrite` writes in one transaction. */
  const CHUNK := (MAXOPBLOCKS - 1 - 1 - 2) / 2 * 512

  function BallocLogs(y: Layout, d: Disk): set<nat> {
    var b := IndexOf(d.used, false);
    {y.bmapStart + b / BPB, b}
  }

  function MapAddrLogs(y: Layout, d: Disk, i: nat, n: nat): set<nat>
    requires Shaped(d) && i < |d.inodes| && n <= NDIRECT
  {
    if d.inodes[i].addrs[n] != 0 then {} else BallocLogs(y, d)
  }

  function MapEntryLogs(y: Layout, d: Disk, table: nat, j: nat): set<nat>
    requires Shaped(d) && j < NINDIRECT && table < |d.blocks|
  {
    if WordAt(d.blocks[table], j) != 0 then {} else BallocLogs(y, d) + {table}
  }

  /** The blocks that `bmap` passes to `log_write`. */
  function BmapLogs(y: Layout, d: Disk, i: nat, bn: nat): set<nat>
    requires Shaped(d) && i < |d.inodes|
  {
    if bn < NDIRECT then MapAddrLogs(y, d, i, bn)
    else if bn < MAXFILE then
      match MapAddr(d, i, NDIRECT, true)
      case Panic => {}
      case Mapped(d1, table) =>
        if Shaped(d1) && table < |d1.blocks|
        then MapAddrLogs(y, d, i, NDIRECT) + MapEntryLogs(y, d1, table, bn - NDIRECT) else {}
    else {}
  }

  /** The blocks that the loop of `writei` passes to `log_write`. */
  function WriteLogs(y: Layout, d: Disk, i: nat, off: nat, data: Bytes): set<nat>
    requires Shaped(d) && i < |d.inodes|
    decreases |data|
  {
    if data == [] then {}
    else
      match Bmap(d, i, off / BSIZE, true)
      case Panic => {}
      case Mapped(d1, b) =>
        var m := Piece(off, |data|);
        if !Shaped(d1) || i >= |d1.inodes| || b >= |d1.blocks| then {}
        else
          var d2 := Store(d1, b, Splice(d1.blocks[b], off % BSIZE, data[..m]));
          BmapLogs(y, d, i, off / BSIZE) + {b} + if Shaped(d2) then WriteLogs(y, d2, i, off + m, data[m..]) else {}
  }

  /** The file gets longer. */
  predicate Grows(d: Disk, i: nat, off: nat, data: Bytes)
    requires i < |d.inodes|
  {
    data != [] && off + |data| > d.inodes[i].size
  }

  /** With the block of the inode, which `iupdate` logs when the file gets longer. */
  function WriteiLogs(y: Layout, d: Disk, i: nat, off: nat, data: Bytes): set<nat>
    requires Shaped(d) && i < |d.inodes|
  {
    if Writei(d, i, off, data) == Refused then {}
    else WriteLogs(y, d, i, off, data) + if Grows(d, i, off, data) then {y.inodeStart + i / INODES_PER_BLOCK} else {}
  }

  /** The block of the free map that `balloc` logs. */
  ghost function BallocMap(y: Layout, d: Disk): set<nat> { {y.bmapStart + IndexOf(d.used, false) / BPB} }

  lemma MapAddrLogsIn(y: Layout, d: Disk, i: nat, n: nat) returns (maps: set<nat>)
    requires Shaped(d) && i < |d.inodes| && n <= NDIRECT && MapAddr(d, i, n, true).Mapped?
    ensures MapAddrLogs(y, d, i, n) <= maps + {MapAddr(d, i, n, true).addr}
    ensures |maps| == (if d.inodes[i].addrs[n] == 0 then 1 else 0) && (|d.used| <= BPB ==> maps <= {y.bmapStart})
  {
    maps := if d.inodes[i].addrs[n] == 0 then BallocMap(y, d) else {};
  }

  lemma MapEntryLogsIn(y: Layout, d: Disk, table: nat, j: nat) returns (maps: set<nat>)
    requires Shaped(d) && j < NINDIRECT && table < |d.blocks| && MapEntry(d, table, j, true).Mapped?
    ensures MapEntryLogs(y, d, table, j) <= maps + {table, MapEntry(d, table, j, true).addr}
    ensures |maps| == (if WordAt(d.blocks[table], j) == 0 then 1 else 0) && (|d.used| <= BPB ==> maps <= {y.bmapStart})
  {
    maps := if WordAt(d.blocks[table], j) == 0 then BallocMap(y, d) else {};
  }

  /** The indirect block, where block `bn` needs it. */
  ghost function TableOf(d: Disk, i: nat, bn: nat): set<nat>
    requires Shaped(d) && i < |d.inodes|
  {
    if bn >= NDIRECT then {Slot(d, i, MAXFILE)} else {}
  }

  lemma TableStays(d: Disk, i: nat, bn: nat)
    requires Inv(d) && i < |d.inodes| && NDIRECT <= bn < MAXFILE && Bmap(d, i, bn, true).Mapped?
    ensures var r := Bmap(d, i, bn, true);
      Shaped(r.d) && i < |r.d.inodes| && Slot(r.d, i, MAXFILE) == MapAddr(d, i, NDIRECT, true).addr != 0
  {
    hide WordAt, PutWord, MapAddr, ByteAt, NoLeak;
    MapAddrExtends(d, i, NDIRECT, true);
    BmapOk(d, i, bn, true);
  }

  /** `bmap` logs the block asked for, the indirect block where it needs one, and as many blocks of
      the free map as it allocates blocks. */
  lemma BmapLogsIn(y: Layout, d: Disk, i: nat, bn: nat) returns (maps: set<nat>)
    requires Inv(d) && i < |d.inodes| && bn < MAXFILE && Bmap(d, i, bn, true).Mapped?
    ensures var r := Bmap(d, i, bn, true);
      && Shaped(r.d) && i < |r.d.inodes|
      && BmapLogs(y, d, i, bn) <= maps + {r.addr} + TableOf(r.d, i, bn) && 0 !in TableOf(r.d, i, bn)
    ensures |maps| <= Wanted(d, i, bn, bn + 1) && (|d.used| <= BPB ==> maps <= {y.bmapStart})
  {
    hide WordAt, ByteAt, NoLeak, SlotsUsed, SlotsDistinct, MapAddr, MapEntry, MapAddrLogs, MapEntryLogs;
    BmapOk(d, i, bn, true);
    assert EmptySlots(d, i, bn, bn + 1) == EmptySlots(d, i, bn, bn) + if Slot(d, i, bn) == 0 then 1 else 0;
    if bn < NDIRECT {
      maps := MapAddrLogsIn(y, d, i, bn);
    } else {
      MapAddrExtends(d, i, NDIRECT, true);
      var r := MapAddr(d, i, NDIRECT, true);
      var a := MapAddrLogsIn(y, d, i, NDIRECT);
      var b := MapEntryLogsIn(y, r.d, r.addr, bn - NDIRECT);
      maps := a + b;
      SlotKept(d, i, bn, true);
      TableStays(d, i, bn);
      assert |a + b| <= |a| + |b|;
    }
  }

  ghost function Touched(d: Disk, i: nat, lo: nat, hi: nat): set<nat>
    requires Shaped(d) && i < |d.inodes| && hi <= MAXFILE
  {
    set k | lo <= k < hi :: Slot(d, i, k)
  }

  lemma {:induction false} TouchedCard(d: Disk, i: nat, lo: nat, hi: nat)
    requires Shaped(d) && i < |d.inodes| && lo <= hi <= MAXFILE
    ensures |Touched(d, i, lo, hi)| <= hi - lo
    decreases hi
  {
    if lo < hi {
      TouchedCard(d, i, lo, hi - 1);
      assert Touched(d, i, lo, hi) == Touched(d, i, lo, hi - 1) + {Slot(d, i, hi - 1)};
    } else {
      assert Touched(d, i, lo, hi) == {};
    }
  }

  lemma TouchedMore(d: Disk, i: nat, lo: nat, hi: nat)
    requires Shaped(d) && i < |d.inodes| && lo < hi <= MAXFILE
    ensures Slot(d, i, lo) in Touched(d, i, lo, hi) && Touched(d, i, lo + 1, hi) <= Touched(d, i, lo, hi)
  {
  }

  /** All that the loop logs: the blocks written, the indirect block, and as many blocks of the free
      map as the stretch takes blocks. */
  lemma {:induction false} WriteLogsIn(y: Layout, d: Disk, i: nat, off: nat, data: Bytes) returns (maps: set<nat>)
    requires Inv(d) && i < |d.inodes| && off + |data| <= MAXBYTES && WriteFrom(d, i, off, data).Written?
    ensures Last(off, |data|) <= MAXFILE
    ensures var d1 := WriteFrom(d, i, off, data).d;
      && Inv(d1) && |d1.inodes| == |d.inodes|
      && WriteLogs(y, d, i, off, data) <= maps + {Slot(d1, i, MAXFILE)} + Touched(d1, i, off / BSIZE, Last(off, |data|))
    ensures |maps| <= Wanted(d, i, off / BSIZE, Last(off, |data|)) && (|d.used| <= BPB ==> maps <= {y.bmapStart})
    decreases |data|
  {
    hide Bmap, BmapLogs, NoLeak, ByteAt, Slot, SlotsUsed, SlotsDistinct, Touched, Wanted, Wrote, Filled, TableOf, WriteLogs;
    if data == [] {
      assert WriteLogs(y, d, i, off, data) == {} by { NoLogs(y, d, i, off); }
      maps := {};
    } else {
      var k, m := off / BSIZE, Piece(off, |data|);
      Pieces(off, |data|);
      var r := Bmap(d, i, k, true);
      var d2 := WriteOne(d, i, off, data[..m]);
      var a := BmapLogsIn(y, d, i, k);
      var b := WriteLogsIn(y, d2, i, off + m, data[m..]);
      maps := a + b;
      MapsThen(d, d2, i, off, |data|, a, b);
      LogsThen(y, d, i, off, data, d2, WriteFrom(d2, i, off + m, data[m..]).d, a, b);
    }
  }

  lemma NoLogs(y: Layout, d: Disk, i: nat, off: nat)
    requires Shaped(d) && i < |d.inodes|
    ensures WriteLogs(y, d, i, off, []) == {}
  {
  }

  lemma MapsThen(d: Disk, d2: Disk, i: nat, off: nat, n: nat, a: set<nat>, b: set<nat>)
    requires 0 < n && off + n <= MAXBYTES && Filled(d, d2, i, off / BSIZE, off / BSIZE + 1)
    requires |a| <= Wanted(d, i, off / BSIZE, off / BSIZE + 1)
    requires var m := Piece(off, n);
      Last(off + m, n - m) <= MAXFILE && |b| <= Wanted(d2, i, (off + m) / BSIZE, Last(off + m, n - m))
    ensures Last(off, n) <= MAXFILE && |a + b| <= Wanted(d, i, off / BSIZE, Last(off, n))
  {
    hide Slot, Filled;
    var k, m := off / BSIZE, Piece(off, n);
    Pieces(off, n);
    assert |a + b| <= |a| + |b|;
    if m < n { WantedThen(d, d2, i, k, k + 1, k + 1, Last(off, n)); }
  }

  /** From what the rest of the loop logs to what all of it logs. */
  lemma LogsThen(y: Layout, d: Disk, i: nat, off: nat, data: Bytes, d2: Disk, d1: Disk, a: set<nat>, b: set<nat>)
    requires Inv(d) && i < |d.inodes| && data != [] && off + |data| <= MAXBYTES && Bmap(d, i, off / BSIZE, true).Mapped?
    requires var r := Bmap(d, i, off / BSIZE, true);
      && Shaped(r.d) && i < |r.d.inodes| && r.addr < |r.d.blocks| && Inv(d2) && |d2.inodes| == |d.inodes|
      && d2 == Store(r.d, r.addr, Splice(r.d.blocks[r.addr], off % BSIZE, data[..Piece(off, |data|)]))
      && BmapLogs(y, d, i, off / BSIZE) <= a + {r.addr} + TableOf(r.d, i, off / BSIZE) && 0 !in TableOf(r.d, i, off / BSIZE)
    requires WriteFrom(d2, i, off + Piece(off, |data|), data[Piece(off, |data|)..]) == Written(d1)
    requires Inv(d1) && |d1.inodes| == |d.inodes|
    requires var m := Piece(off, |data|);
      && Last(off + m, |data| - m) <= MAXFILE
      && WriteLogs(y, d2, i, off + m, data[m..]) <=
        b + {Slot(d1, i, MAXFILE)} + Touched(d1, i, (off + m) / BSIZE, Last(off + m, |data| - m))
    ensures WriteFrom(d, i, off, data) == Written(d1) && Last(off, |data|) <= MAXFILE
    ensures WriteLogs(y, d, i, off, data) <= a + b + {Slot(d1, i, MAXFILE)} + Touched(d1, i, off / BSIZE, Last(off, |data|))
  {
    hide Bmap, BmapLogs, Slot, SlotsUsed, SlotsDistinct, Touched, TableOf, WriteFrom, WriteLogs, Splice, Store, Last;
    var k, r, m := off / BSIZE, Bmap(d, i, off / BSIZE, true), Piece(off, |data|);
    LogsUnfold(y, d, i, off, data, d2);
    LogsLater(d, i, off, data, d2, d1);
    TouchedLater(d1, i, off, |data|);
    Gathered(BmapLogs(y, d, i, k), r.addr, TableOf(r.d, i, k), a, WriteLogs(y, d2, i, off + m, data[m..]), b, Slot(d1, i, MAXFILE),
             Touched(d1, i, (off + m) / BSIZE, Last(off + m, |data| - m)), Touched(d1, i, k, Last(off, |data|)));
  }

  lemma LogsLater(d: Disk, i: nat, off: nat, data: Bytes, d2: Disk, d1: Disk)
    requires Inv(d) && i < |d.inodes| && data != [] && off + |data| <= MAXBYTES && Bmap(d, i, off / BSIZE, true).Mapped?
    requires var r := Bmap(d, i, off / BSIZE, true);
      && Shaped(r.d) && i < |r.d.inodes| && r.addr < |r.d.blocks| && Inv(d2) && |d2.inodes| == |d.inodes|
      && d2 == Store(r.d, r.addr, Splice(r.d.blocks[r.addr], off % BSIZE, data[..Piece(off, |data|)]))
      && 0 !in TableOf(r.d, i, off / BSIZE)
    requires WriteFrom(d2, i, off + Piece(off, |data|), data[Piece(off, |data|)..]) == Written(d1)
    requires Inv(d1) && |d1.inodes| == |d.inodes|
    ensures var r := Bmap(d, i, off / BSIZE, true);
      Slot(d1, i, off / BSIZE) == r.addr && TableOf(r.d, i, off / BSIZE) <= {Slot(d1, i, MAXFILE)}
  {
    hide Bmap, NoLeak, ByteAt, Slot, SlotsUsed, SlotsDistinct, Wanted, Filled, WriteFrom;
    var k, r, m := off / BSIZE, Bmap(d, i, off / BSIZE, true), Piece(off, |data|);
    BmapOk(d, i, k, true);
    WriteFromOk(d2, i, off + m, data[m..]);
    LaterSlots(r.d, i, k, d2, d1, off + m, data[m..], d2.blocks[r.addr]);
  }

  lemma Gathered(logs: set<nat>, addr: nat, table: set<nat>, a: set<nat>, more: set<nat>, b: set<nat>, t: nat,
                 later: set<nat>, all: set<nat>)
    requires logs <= a + {addr} + table && table <= {t} && more <= b + {t} + later && later <= all && addr in all
    ensures logs + {addr} + more <= a + b + {t} + all
  {
  }

  lemma LogsUnfold(y: Layout, d: Disk, i: nat, off: nat, data: Bytes, d2: Disk)
    requires Shaped(d) && i < |d.inodes| && data != [] && Bmap(d, i, off / BSIZE, true).Mapped? && Shaped(d2) && i < |d2.inodes|
    requires var r := Bmap(d, i, off / BSIZE, true);
      && Shaped(r.d) && i < |r.d.inodes| && r.addr < |r.d.blocks|
      && d2 == Store(r.d, r.addr, Splice(r.d.blocks[r.addr], off % BSIZE, data[..Piece(off, |data|)]))
    ensures var m := Piece(off, |data|);
      && WriteFrom(d, i, off, data) == WriteFrom(d2, i, off + m, data[m..])
      && WriteLogs(y, d, i, off, data) ==
        BmapLogs(y, d, i, off / BSIZE) + {Bmap(d, i, off / BSIZE, true).addr} + WriteLogs(y, d2, i, off + m, data[m..])
  {
    hide Bmap, BmapLogs, Slot;
  }

  lemma TouchedLater(d: Disk, i: nat, off: nat, n: nat)
    requires Shaped(d) && i < |d.inodes| && 0 < n && off + n <= MAXBYTES
    ensures var m := Piece(off, n);
      && Last(off, n) <= MAXFILE && Last(off + m, n - m) <= MAXFILE
      && Slot(d, i, off / BSIZE) in Touched(d, i, off / BSIZE, Last(off, n))
      && Touched(d, i, (off + m) / BSIZE, Last(off + m, n - m)) <= Touched(d, i, off / BSIZE, Last(off, n))
  {
    Pieces(off, n);
    TouchedMore(d, i, off / BSIZE, Last(off, n));
  }

  /** The addresses `bmap` gave stay to the end of the loop. */
  lemma LaterSlots(d: Disk, i: nat, k: nat, d2: Disk, d1: Disk, off: nat, rest: Bytes, block: Bytes)
    requires Inv(d) && i < |d.inodes| && k < MAXFILE && Slot(d, i, k) != 0 && Slot(d, i, k) < |d.blocks|
    requires |block| == BSIZE && d2 == Store(d, Slot(d, i, k), block) && Wrote(d2, d1, i, off, rest)
    ensures i < |d1.inodes| && Slot(d1, i, k) == Slot(d, i, k)
    ensures Slot(d, i, MAXFILE) != 0 ==> Slot(d1, i, MAXFILE) == Slot(d, i, MAXFILE)
  {
    hide NoLeak, ByteAt, Slot, SlotsUsed, SlotsDistinct;
    assert IsSlot(d, i, k) && IsSlot(d, i, MAXFILE) && IsSlot(d2, i, k) && IsSlot(d2, i, MAXFILE);
    StoreSlots(d, i, k, block, i, k);
    StoreSlots(d, i, k, block, i, MAXFILE);
  }

  lemma {:induction false} EmptyAtMost(d: Disk, i: nat, lo: nat, hi: nat)
    requires Shaped(d) && i < |d.inodes| && lo <= hi <= MAXFILE
    ensures EmptySlots(d, i, lo, hi) <= hi - lo
    decreases hi
  {
    if lo == hi {
    } else {
      EmptyAtMost(d, i, lo, hi - 1);
    }
  }

  /** What a chunk takes on a disk without holes: at most three blocks of data, as the first of four
      is there, and the indirect block. */
  lemma ChunkWants(d: Disk, i: nat, off: nat, n: nat)
    requires Good(d) && NoHoles(d) && i < |d.inodes| && off <= d.inodes[i].size && off + n <= MAXBYTES && n <= CHUNK
    ensures var lo, hi := off / BSIZE, Last(off, n); lo <= hi <= MAXFILE && Wanted(d, i, lo, hi) + (hi - lo) <= 8
  {
    hide NoLeak, ByteAt, Slot, SlotsUsed, SlotsDistinct;
    var lo, hi := off / BSIZE, Last(off, n);
    assert lo <= hi <= lo + (if off % BSIZE == 0 then 3 else 4) && hi <= MAXFILE;
    if off % BSIZE == 0 || lo == hi {
      EmptyAtMost(d, i, lo, hi);
    } else {
      assert IsSlot(d, i, lo) && lo * BSIZE < off;
      EmptySplit(d, i, lo, lo + 1, hi);
      EmptyNone(d, i, lo, lo + 1);
      EmptyAtMost(d, i, lo + 1, hi);
    }
  }

  /** A chunk of `filewrite` dirties at most four blocks of data, the indirect block, the block of the
      inode and the blocks of the free map: seven in all if the free map is one block, and on a disk
      without holes, whatever its size, the ten that `MAXOPBLOCKS` allows for. */
  lemma ChunkFits(y: Layout, d: Disk, i: nat, off: nat, data: Bytes)
    requires Good(d) && i < |d.inodes| && |data| <= CHUNK && !Writei(d, i, off, data).Crashed?
    ensures |d.used| <= BPB ==> |WriteiLogs(y, d, i, off, data)| <= 7
    ensures NoHoles(d) ==> |WriteiLogs(y, d, i, off, data)| <= MAXOPBLOCKS
  {
    hide WriteLogs, WriteFrom, NoLeak, NoHoles, ByteAt, Slot, SlotsUsed, SlotsDistinct, Touched, Wanted;
    if Writei(d, i, off, data) != Refused {
      var maps := WriteLogsIn(y, d, i, off, data);
      var d1 := WriteFrom(d, i, off, data).d;
      var lo, hi := off / BSIZE, Last(off, |data|);
      assert lo <= hi <= lo + 4;
      TouchedCard(d1, i, lo, hi);
      var inode := {y.inodeStart + i / INODES_PER_BLOCK};
      var rest := {Slot(d1, i, MAXFILE)} + Touched(d1, i, lo, hi) + inode;
      assert |rest| <= hi - lo + 2;
      CardSubset(WriteiLogs(y, d, i, off, data), maps + rest);
      assert |maps + rest| <= |maps| + |rest|;
      if |d.used| <= BPB { CardSubset(maps, {y.bmapStart}); }
      if NoHoles(d) { ChunkWants(d, i, off, |data|); }
    }
  }

  // ---------- filewrite ----------

  /** How much was written, and where the file offset then stands. */
  datatype Filed = Filed(d: Disk, off: nat, written: nat) | FileCrashed

  /** The loop of `filewrite`: a transaction per chunk, until one is refused. */
  function FileWrite(d: Disk, i: nat, off: nat, data: Bytes): Filed
    requires Shaped(d) && i < |d.inodes|
    decreases |data|
  {
    if data == [] then Filed(d, off, 0)
    else
      var n := Min(|data|, CHUNK);
      match Writei(d, i, off, data[..n])
      case Crashed => FileCrashed
      case Refused => Filed(d, off, 0)
      case Done(d1, r) =>
        if !Shaped(d1) || i >= |d1.inodes| then FileCrashed
        else
          match FileWrite(d1, i, off + n, data[n..])
          case FileCrashed => FileCrashed
          case Filed(d2, off2, w) => Filed(d2, off2, n + w)
  }

  lemma SpliceTwice(s: Bytes, off: nat, a: Bytes, b: Bytes)
    requires off <= |s|
    ensures off + |a| <= |Splice(s, off, a)| && Splice(Splice(s, off, a), off + |a|, b) == Splice(s, off, a + b)
  {
  }

  lemma SpliceLength(s: Bytes, off: nat, data: Bytes)
    requires off <= |s|
    ensures |Splice(s, off, data)| == Max(|s|, off + |data|)
  {
  }

  lemma WriteiRefuses(d: Disk, i: nat, off: nat, data: Bytes)
    requires Shaped(d) && i < |d.inodes|
    ensures Writei(d, i, off, data) == Refused <==> off > d.inodes[i].size || off + |data| > MAXBYTES
  {
  }

  /** How many of `n` bytes at `off` of a file of the given size are not refused: none if they start
      behind its end, all if they end within the largest file, else whole chunks. */
  function Accepted(size: nat, off: nat, n: nat): nat {
    if off > size then 0 else if off + n <= MAXBYTES then n else if off > MAXBYTES then 0 else (MAXBYTES - off) / CHUNK * CHUNK
  }

  lemma AcceptedStep(size: nat, off: nat, n: nat)
    requires off <= size && 0 < n && off + Min(n, CHUNK) <= MAXBYTES
    ensures var m := Min(n, CHUNK); Accepted(size, off, n) == m + Accepted(Max(size, off + m), off + m, n - m)
  {
    if off + n > MAXBYTES {
      var x := MAXBYTES - off;
      assert x / CHUNK == 1 + (x - CHUNK) / CHUNK;
    }
  }

  lemma AcceptedNone(size: nat, off: nat, n: nat)
    requires off > size || off + Min(n, CHUNK) > MAXBYTES
    ensures Accepted(size, off, n) == 0
  {
  }

  lemma AcceptedBound(size: nat, off: nat, n: nat)
    requires size <= MAXBYTES
    ensures var a := Accepted(size, off, n); a <= n && (0 < a ==> off <= size && off + a <= MAXBYTES)
  {
  }

  /** `w` bytes of the data went to the file at `off`, in the blocks that takes; nothing else changed. */
  ghost predicate FileWrote(d: Disk, d1: Disk, i: nat, off: nat, data: Bytes, w: nat) { Whole(FileWroteFacts(d, d1, i, off, data, w)) }

  ghost predicate FileWroteFacts(d: Disk, d1: Disk, i: nat, off: nat, data: Bytes, w: nat) {
    && Good(d) && Good(d1) && i < |d.inodes| == |d1.inodes| && w <= |data|
    && (NoLeak(d) ==> NoLeak(d1)) && (NoHoles(d) ==> NoHoles(d1)) && (0 < w ==> off <= d.inodes[i].size && off + w <= MAXBYTES)
    && Contents(d1, i) == (if w == 0 then Contents(d, i) else Splice(Contents(d, i), off, data[..w]))
    && (forall j :: 0 <= j < |d.inodes| && j != i ==> Contents(d1, j) == Contents(d, j))
    && (if w == 0 then d1 == d else Last(off, w) <= MAXFILE && Filled(d, d1, i, off / BSIZE, Last(off, w)))
  }

  /** `filewrite` panics if and only if the stretch it is to write takes more blocks than are free;
      else it writes, in order, the bytes that are not refused, and returns their number if that is
      all of them, else -1. */
  lemma {:induction false} FileWriteOk(d: Disk, i: nat, off: nat, data: Bytes)
    requires Good(d) && i < |d.inodes|
    ensures var w := Accepted(d.inodes[i].size, off, |data|);
      match FileWrite(d, i, off, data)
      case FileCrashed => 0 < w && Last(off, w) <= MAXFILE && FreeCount(d.used) < Wanted(d, i, off / BSIZE, Last(off, w))
      case Filed(d1, off1, written) => written == w && off1 == off + w && FileWrote(d, d1, i, off, data, w)
    decreases |data|
  {
    hide Writei, NoLeak, NoHoles, ByteAt, Slot, SlotsUsed, SlotsDistinct, FileWrote, Contents, Splice, Wanted, Filled, WroteFile,
      Accepted, Last;
    var size, n := d.inodes[i].size, Min(|data|, CHUNK);
    if data == [] {
      AcceptedBound(size, off, 0);
      FileWroteNone(d, i, off, data);
    } else {
      WriteiOk(d, i, off, data[..n]);
      match Writei(d, i, off, data[..n])
      case Refused =>
        AcceptedNone(size, off, |data|);
        FileWroteNone(d, i, off, data);
      case Crashed =>
        AcceptedStep(size, off, |data|);
        AcceptedBound(size, off, |data|);
        LastMore(d, i, off, n, Accepted(size, off, |data|));
      case Done(d1, _) =>
        ChunkDone(d, d1, i, off, data[..n]);
        AcceptedStep(size, off, |data|);
        AcceptedBound(size, off, |data|);
        AcceptedBound(d1.inodes[i].size, off + n, |data| - n);
        FileWriteOk(d1, i, off + n, data[n..]);
        FileThen(d, d1, i, off, data, n);
    }
  }

  /** When `filewrite` panics, said from the call alone. */
  lemma FileWriteCrashes(d: Disk, i: nat, off: nat, data: Bytes)
    requires Good(d) && i < |d.inodes|
    ensures var w := Accepted(d.inodes[i].size, off, |data|);
      FileWrite(d, i, off, data).FileCrashed? <==>
        0 < w && Last(off, w) <= MAXFILE && FreeCount(d.used) < Wanted(d, i, off / BSIZE, Last(off, w))
  {
    hide FileWrite, NoLeak, NoHoles, ByteAt, Slot, SlotsUsed, SlotsDistinct, Contents, Splice, Wanted, Filled;
    FileWriteOk(d, i, off, data);
    var r, w := FileWrite(d, i, off, data), Accepted(d.inodes[i].size, off, |data|);
    if r.Filed? && w > 0 { FilledFacts(d, r.d, i, off / BSIZE, Last(off, w)); }
  }

  lemma FileWroteNone(d: Disk, i: nat, off: nat, data: Bytes)
    requires Good(d) && i < |d.inodes|
    ensures FileWrote(d, d, i, off, data, 0)
  {
  }

  /** A longer stretch takes no fewer blocks. */
  lemma LastMore(d: Disk, i: nat, off: nat, m: nat, n: nat)
    requires Shaped(d) && i < |d.inodes| && 0 < m <= n && off + n <= MAXBYTES
    ensures Last(off, m) <= Last(off, n) <= MAXFILE
    ensures Wanted(d, i, off / BSIZE, Last(off, m)) <= Wanted(d, i, off / BSIZE, Last(off, n))
  {
    hide Slot;
    WantedMore(d, i, off / BSIZE, Last(off, m), Last(off, n));
  }

  lemma ChunkDone(d: Disk, d1: Disk, i: nat, off: nat, data: Bytes)
    requires WroteFile(d, d1, i, off, data)
    ensures Good(d) && Good(d1) && i < |d.inodes| == |d1.inodes| && off <= d.inodes[i].size && off + |data| <= MAXBYTES
    ensures d1.inodes[i].size == Max(d.inodes[i].size, off + |data|)
  {
    hide Slot, ByteAt, NoLeak, NoHoles, SlotsUsed, SlotsDistinct, Filled;
    SpliceLength(Contents(d, i), off, data);
  }

  /** Where the rest of a stretch begins and ends. */
  lemma Stretches(off: nat, a: nat, b: nat)
    requires 0 < a && 0 < b && off + a + b <= MAXBYTES
    ensures var lo, mid, rest, hi := off / BSIZE, Last(off, a), (off + a) / BSIZE, Last(off + a, b);
      lo <= rest <= mid <= hi <= MAXFILE && mid <= rest + 1 && hi == Last(off, a + b)
  {
  }

  /** From what the later chunks do to what all do. */
  lemma FileThen(d: Disk, d1: Disk, i: nat, off: nat, data: Bytes, n: nat)
    requires 0 < n == Min(|data|, CHUNK) && Good(d) && i < |d.inodes|
    requires Writei(d, i, off, data[..n]) == Done(d1, n) && WroteFile(d, d1, i, off, data[..n])
    requires Good(d1) && |d1.inodes| == |d.inodes| && off + n <= MAXBYTES
    requires var w := Accepted(d1.inodes[i].size, off + n, |data| - n);
      && w <= |data| - n && off + n + w <= MAXBYTES && Accepted(d.inodes[i].size, off, |data|) == n + w
      && match FileWrite(d1, i, off + n, data[n..])
        case FileCrashed => 0 < w && Last(off + n, w) <= MAXFILE && FreeCount(d1.used) < Wanted(d1, i, (off + n) / BSIZE, Last(off + n, w))
        case Filed(d2, off2, written) => written == w && off2 == off + n + w && FileWrote(d1, d2, i, off + n, data[n..], w)
    ensures var w := Accepted(d.inodes[i].size, off, |data|);
      match FileWrite(d, i, off, data)
      case FileCrashed => 0 < w && Last(off, w) <= MAXFILE && FreeCount(d.used) < Wanted(d, i, off / BSIZE, Last(off, w))
      case Filed(d2, off2, written) => written == w && off2 == off + w && FileWrote(d, d2, i, off, data, w)
  {
    hide Writei, NoLeak, NoHoles, ByteAt, Slot, SlotsUsed, SlotsDistinct, FileWrote, Contents, Splice, Wanted, Filled, WroteFile,
      Accepted, Last;
    var w := Accepted(d1.inodes[i].size, off + n, |data| - n);
    match FileWrite(d1, i, off + n, data[n..])
    case FileCrashed => CrashThen(d, d1, i, off, data, n, w);
    case Filed(d2, off2, _) => WroteThenWrote(d, d1, d2, i, off, data, n, w);
  }

  lemma CrashThen(d: Disk, d1: Disk, i: nat, off: nat, data: Bytes, n: nat, w: nat)
    requires 0 < n <= |data| && 0 < w && off + n + w <= MAXBYTES && WroteFile(d, d1, i, off, data[..n])
    requires Shaped(d1) && i < |d1.inodes| && Last(off + n, w) <= MAXFILE
    requires FreeCount(d1.used) < Wanted(d1, i, (off + n) / BSIZE, Last(off + n, w))
    ensures i < |d.inodes| && Shaped(d) && Last(off, n + w) <= MAXFILE
    ensures FreeCount(d.used) < Wanted(d, i, off / BSIZE, Last(off, n + w))
  {
    hide NoLeak, NoHoles, ByteAt, Slot, SlotsUsed, SlotsDistinct, Contents, Splice, Wanted, Filled, Last;
    Stretches(off, n, w);
    FilledFacts(d, d1, i, off / BSIZE, Last(off, n));
    WantedThen(d, d1, i, off / BSIZE, Last(off, n), (off + n) / BSIZE, Last(off + n, w));
  }

  lemma WroteThenWrote(d: Disk, d1: Disk, d2: Disk, i: nat, off: nat, data: Bytes, n: nat, w: nat)
    requires 0 < n <= |data| && off + n + w <= MAXBYTES && WroteFile(d, d1, i, off, data[..n])
    requires FileWrote(d1, d2, i, off + n, data[n..], w)
    ensures FileWrote(d, d2, i, off, data, n + w)
  {
    hide NoLeak, NoHoles, ByteAt, Slot, SlotsUsed, SlotsDistinct, Contents, Splice, Wanted, Filled, Last;
    if w > 0 {
      Stretches(off, n, w);
      FilledThen(d, d1, d2, i, off / BSIZE, Last(off, n), (off + n) / BSIZE, Last(off + n, w));
      SpliceTwice(Contents(d, i), off, data[..n], data[n..][..w]);
      assert data[..n] + data[n..][..w] == data[..n + w];
    }
  }

  /** A call that returns -1 can still have written: exactly if the data starts within the file and
      does not fit, but its first chunk does, and there are blocks for all chunks that do. */
  lemma PartialExactly(d: Disk, i: nat, off: nat, data: Bytes)
    requires Good(d) && i < |d.inodes|
    ensures var r, w := FileWrite(d, i, off, data), Accepted(d.inodes[i].size, off, |data|);
      r.Filed? && 0 < r.written < |data| <==>
        && off <= d.inodes[i].size && off + |data| > MAXBYTES && off + CHUNK <= MAXBYTES
        && Last(off, w) <= MAXFILE && Wanted(d, i, off / BSIZE, Last(off, w)) <= FreeCount(d.used)
  {
    hide NoLeak, NoHoles, ByteAt, Slot, SlotsUsed, SlotsDistinct, Contents, Splice, Wanted, Filled;
    FileWriteOk(d, i, off, data);
    var r, w := FileWrite(d, i, off, data), Accepted(d.inodes[i].size, off, |data|);
    if r.Filed? && w > 0 { FilledFacts(d, r.d, i, off / BSIZE, Last(off, w)); }
  }

  /** A disk with one empty file and `n` free blocks. */
  function Blank(n: nat): Disk {
    Disk(1, [true] + seq(n, b => false), seq(n + 1, b => Zeros()), [Inode(NoAddrs(), 0)])
  }

  lemma {:induction false} FreeCountBlank(n: nat)
    ensures FreeCount(seq(n, b => false)) == n
  {
    if n == 0 {
    } else {
      FreeCountBlank(n - 1);
      assert seq(n, b => false)[1..] == seq(n - 1, b => false);
    }
  }

  lemma BlankGood(n: nat)
    requires n < WORD
    ensures Good(Blank(n)) && NoHoles(Blank(n)) && NoLeak(Blank(n)) && FreeCount(Blank(n).used) == n
    ensures forall k :: 0 <= k <= MAXFILE ==> Slot(Blank(n), 0, k) == 0
  {
    FreeCountBlank(n);
    assert Blank(n).used[1..] == seq(n, b => false);
  }

  lemma {:induction false} EmptyAll(d: Disk, i: nat, lo: nat, hi: nat)
    requires Shaped(d) && i < |d.inodes| && lo <= hi <= MAXFILE && forall k :: lo <= k < hi ==> Slot(d, i, k) == 0
    ensures EmptySlots(d, i, lo, hi) == hi - lo
    decreases hi
  {
    if lo == hi {
    } else {
      EmptyAll(d, i, lo, hi - 1);
    }
  }

  /** Such a call: one byte more than the largest file, to an empty file on a disk with at least 139
      free blocks, returns -1 with 46 chunks written. */
  lemma PartialHappens(n: nat, data: Bytes)
    requires 139 <= n < WORD && |data| == MAXBYTES + 1
    ensures Good(Blank(n)) && |Blank(n).inodes| == 1
    ensures FileWrite(Blank(n), 0, 0, data).Filed? && FileWrite(Blank(n), 0, 0, data).written == 70656
  {
    hide NoLeak, NoHoles, ByteAt, SlotsUsed, SlotsDistinct, Contents, Splice, FileWrite, Blank, Slot, Wanted, FileWrote, Accepted,
      Last, FreeCount, IndexOf;
    BlankGood(n);
    BlankWants(n, 138);
    FullChunks();
    FileWriteOk(Blank(n), 0, 0, data);
  }

  lemma FullChunks()
    ensures Accepted(0, 0, MAXBYTES + 1) == 70656 && Last(0, 70656) == 138
  {
    assert CHUNK == 1536 && MAXBYTES == 71680 && 71680 / 1536 == 46;
  }

  lemma BlankWants(n: nat, hi: nat)
    requires n < WORD && NDIRECT < hi <= MAXFILE
    ensures Shaped(Blank(n)) && |Blank(n).inodes| == 1 && Blank(n).inodes[0].size == 0
    ensures Wanted(Blank(n), 0, 0, hi) == hi + 1
  {
    BlankGood(n);
    EmptyAll(Blank(n), 0, 0, hi);
  }
}
