/**
Blocks and files of `fs.c` on values: the free map, the block addresses of the inodes with their
indirect blocks, and the bytes of the files.
*/
module Fs {
  import opened Base

  const BSIZE := 512
  const NDIRECT := 12
  const NINDIRECT := 128
  const MAXFILE := 140
  const WORD := 0x1_0000_0000

  type Bytes = seq<nat>

  datatype Inode = Inode(addrs: seq<nat>, size: nat)

  /** `meta` is the number of blocks before the data blocks; `used` is the free map. */
  datatype Disk = Disk(meta: nat, used: seq<bool>, blocks: seq<Bytes>, inodes: seq<Inode>)

  function Zeros(): Bytes { seq(BSIZE, i => 0) }

  // ---------- words in a block ----------

  /** Word `j` of a block, with the least significant byte first. */
  function WordAt(b: Bytes, j: nat): nat
    requires |b| == BSIZE && j < NINDIRECT
  {
    b[4 * j] + 0x100 * b[4 * j + 1] + 0x1_0000 * b[4 * j + 2] + 0x100_0000 * b[4 * j + 3]
  }

  function PutWord(b: Bytes, j: nat, w: nat): (r: Bytes)
    requires |b| == BSIZE && j < NINDIRECT
    ensures |r| == BSIZE
  {
    b[4 * j := w % 0x100][4 * j + 1 := w / 0x100 % 0x100][4 * j + 2 := w / 0x1_0000 % 0x100][4 * j + 3 := w / 0x100_0000 % 0x100]
  }

  lemma PutWordAt(b: Bytes, j: nat, w: nat, i: nat)
    requires |b| == BSIZE && j < NINDIRECT && i < NINDIRECT && w < WORD
    ensures WordAt(PutWord(b, j, w), i) == if i == j then w else WordAt(b, i)
  {
    if i == j { Bytewise(w); }
  }

  lemma Bytewise(w: nat)
    requires w < WORD
    ensures w % 0x100 + 0x100 * (w / 0x100 % 0x100) + 0x1_0000 * (w / 0x1_0000 % 0x100)
      + 0x100_0000 * (w / 0x100_0000 % 0x100) == w
  {
    assert w / 0x1_0000 == w / 0x100 / 0x100;
    assert w / 0x100_0000 == w / 0x1_0000 / 0x100;
  }

  lemma ZeroWords(j: nat)
    requires j < NINDIRECT
    ensures WordAt(Zeros(), j) == 0
  {
  }

  // ---------- the block addresses ----------

  predicate Shaped(d: Disk) {
    && 0 < d.meta <= |d.used| == |d.blocks| <= WORD
    && (forall b :: 0 <= b < |d.blocks| ==> |d.blocks[b]| == BSIZE)
    && (forall i :: 0 <= i < |d.inodes| ==> |d.inodes[i].addrs| == NDIRECT + 1)
  }

  /** The address in slot `k` of inode `i`: those of the file's blocks, and in slot `MAXFILE` that of
      the indirect block. 0 is no address. */
  function Slot(d: Disk, i: nat, k: nat): nat
    requires Shaped(d) && i < |d.inodes| && k <= MAXFILE
  {
    var table := d.inodes[i].addrs[NDIRECT];
    if k < NDIRECT then d.inodes[i].addrs[k]
    else if k == MAXFILE then table
    else if table == 0 || table >= |d.blocks| then 0
    else WordAt(d.blocks[table], k - NDIRECT)
  }

  predicate IsSlot(d: Disk, i: nat, k: nat) { i < |d.inodes| && k <= MAXFILE }

  /** Addresses are of data blocks that are marked as used. */
  ghost predicate SlotsUsed(d: Disk)
    requires Shaped(d)
  {
    forall i: nat, k: nat :: IsSlot(d, i, k) && Slot(d, i, k) != 0 ==>
      d.meta <= Slot(d, i, k) < |d.used| && d.used[Slot(d, i, k)]
  }

  /** No block is in two slots, of one inode or of two. */
  ghost predicate SlotsDistinct(d: Disk)
    requires Shaped(d)
  {
    forall i: nat, k: nat, j: nat, l: nat ::
      IsSlot(d, i, k) && IsSlot(d, j, l) && (i != j || k != l) && Slot(d, i, k) != 0 ==> Slot(d, i, k) != Slot(d, j, l)
  }

  ghost predicate Inv(d: Disk) { Whole(InvFacts(d)) }

  ghost predicate InvFacts(d: Disk) {
    && Shaped(d) && SlotsUsed(d) && SlotsDistinct(d)
    && forall b :: 0 <= b < d.meta ==> d.used[b]
  }

  /** No data block is marked as used without being in a slot. */
  ghost predicate NoLeak(d: Disk)
    requires Shaped(d)
  {
    forall b :: d.meta <= b < |d.used| && d.used[b] ==> exists i: nat, k: nat :: IsSlot(d, i, k) && Slot(d, i, k) == b
  }

  /** `d1` is `d` with block `b`, free before, in slot `k` of inode `i`, empty before. */
  ghost predicate Installed(d: Disk, d1: Disk, i: nat, k: nat, b: nat) {
    && Shaped(d) && Shaped(d1) && IsSlot(d, i, k) && Slot(d, i, k) == 0
    && |d1.inodes| == |d.inodes| && d1.meta == d.meta
    && d.meta <= b < |d.used| && !d.used[b] && d1.used == d.used[b := true]
    && forall j: nat, l: nat :: IsSlot(d, j, l) ==> Slot(d1, j, l) == if j == i && l == k then b else Slot(d, j, l)
  }

  lemma InstalledInv(d: Disk, d1: Disk, i: nat, k: nat, b: nat)
    requires Inv(d) && Installed(d, d1, i, k, b)
    ensures Inv(d1)
  {
    hide Slot;
  }

  lemma InstalledNoLeak(d: Disk, d1: Disk, i: nat, k: nat, b: nat)
    requires Inv(d) && Installed(d, d1, i, k, b) && NoLeak(d)
    ensures NoLeak(d1)
  {
    hide Slot;
    forall x | d1.meta <= x < |d1.used| && d1.used[x] ensures exists j: nat, l: nat :: IsSlot(d1, j, l) && Slot(d1, j, l) == x {
      if x == b {
        assert IsSlot(d1, i, k) && Slot(d1, i, k) == x;
      } else {
        var j: nat, l: nat :| IsSlot(d, j, l) && Slot(d, j, l) == x;
        assert IsSlot(d1, j, l) && Slot(d1, j, l) == x;
      }
    }
  }

  // ---------- balloc and bmap ----------

  /** A block address, or one of the panics: no free block, a block number out of range, a change
      outside any operation. */
  datatype Mapped = Mapped(d: Disk, addr: nat) | Panic

  function Taken(d: Disk, b: nat): Disk
    requires b < |d.used| == |d.blocks|
  {
    d.(used := d.used[b := true], blocks := d.blocks[b := Zeros()])
  }

  /** The first free block, marked as used and zeroed; `op` says that some operation is under way, for
      without one `log_write` panics. */
  function Balloc(d: Disk, op: bool): Mapped
    requires Shaped(d)
  {
    var b := IndexOf(d.used, false);
    if op && b < |d.used| then Mapped(Taken(d, b), b) else Panic
  }

  function SetAddr(d: Disk, i: nat, n: nat, b: nat): Disk
    requires Shaped(d) && i < |d.inodes| && n <= NDIRECT
  {
    d.(inodes := d.inodes[i := d.inodes[i].(addrs := d.inodes[i].addrs[n := b])])
  }

  function SetEntry(d: Disk, table: nat, j: nat, b: nat): Disk
    requires Shaped(d) && table < |d.blocks| && j < NINDIRECT
  {
    d.(blocks := d.blocks[table := PutWord(d.blocks[table], j, b)])
  }

  /** The address in `addrs[n]`, of a new block if there was none. */
  function MapAddr(d: Disk, i: nat, n: nat, op: bool): Mapped
    requires Shaped(d) && i < |d.inodes| && n <= NDIRECT
  {
    if d.inodes[i].addrs[n] != 0 then Mapped(d, d.inodes[i].addrs[n])
    else
      match Balloc(d, op)
      case Panic => Panic
      case Mapped(d1, b) => Mapped(SetAddr(d1, i, n, b), b)
  }

  /** The address in entry `j` of the indirect block, of a new block if there was none. */
  function MapEntry(d: Disk, table: nat, j: nat, op: bool): Mapped
    requires Shaped(d) && j < NINDIRECT && table < |d.blocks|
  {
    if WordAt(d.blocks[table], j) != 0 then Mapped(d, WordAt(d.blocks[table], j))
    else
      match Balloc(d, op)
      case Panic => Panic
      case Mapped(d1, b) => Mapped(SetEntry(d1, table, j, b), b)
  }

  function Bmap(d: Disk, i: nat, bn: nat, op: bool): Mapped
    requires Shaped(d) && i < |d.inodes|
  {
    if bn < NDIRECT then MapAddr(d, i, bn, op)
    else if bn < MAXFILE then
      match MapAddr(d, i, NDIRECT, op)
      case Panic => Panic
      case Mapped(d1, table) =>
        if Shaped(d1) && table < |d1.blocks| then MapEntry(d1, table, bn - NDIRECT, op) else Panic
    else Panic
  }

  lemma FreeIsData(d: Disk)
    requires Inv(d) && IndexOf(d.used, false) < |d.used|
    ensures d.meta <= IndexOf(d.used, false) && Shaped(Taken(d, IndexOf(d.used, false)))
  {
  }

  /** A free block is the indirect block of no inode, so zeroing it changes no slot. */
  lemma TakenSlots(d: Disk, b: nat, j: nat, l: nat)
    requires Inv(d) && b < |d.used| && !d.used[b] && Shaped(Taken(d, b)) && IsSlot(d, j, l)
    ensures Slot(Taken(d, b), j, l) == Slot(d, j, l)
  {
    assert IsSlot(d, j, MAXFILE);
    assert Slot(d, j, MAXFILE) != b;
  }

  lemma AddrInstalled(d: Disk, i: nat, n: nat, op: bool)
    requires Inv(d) && i < |d.inodes| && n <= NDIRECT && d.inodes[i].addrs[n] == 0 && MapAddr(d, i, n, op).Mapped?
    ensures var r := MapAddr(d, i, n, op); Installed(d, r.d, i, if n < NDIRECT then n else MAXFILE, r.addr)
  {
    hide Zeros, WordAt;
    var r, b := MapAddr(d, i, n, op), IndexOf(d.used, false);
    FreeIsData(d);
    forall j: nat, l: nat | IsSlot(d, j, l)
      ensures Slot(r.d, j, l) == if j == i && l == (if n < NDIRECT then n else MAXFILE) then b else Slot(d, j, l)
    {
      TakenSlots(d, b, j, l);
      if j == i && n == NDIRECT && NDIRECT <= l < MAXFILE { ZeroWords(l - NDIRECT); }
    }
  }

  lemma EntryInstalled(d: Disk, i: nat, j: nat, op: bool)
    requires Inv(d) && i < |d.inodes| && j < NINDIRECT && d.inodes[i].addrs[NDIRECT] != 0
    ensures IsSlot(d, i, MAXFILE) && d.inodes[i].addrs[NDIRECT] < |d.blocks|
    ensures var r := MapEntry(d, d.inodes[i].addrs[NDIRECT], j, op);
      Slot(d, i, NDIRECT + j) == 0 && r.Mapped? ==> Installed(d, r.d, i, NDIRECT + j, r.addr)
  {
    hide Zeros, WordAt, PutWord;
    var table := d.inodes[i].addrs[NDIRECT];
    assert IsSlot(d, i, MAXFILE) && Slot(d, i, MAXFILE) == table;
    var r := MapEntry(d, table, j, op);
    if Slot(d, i, NDIRECT + j) == 0 && r.Mapped? {
      FreeIsData(d);
      forall x: nat, l: nat | IsSlot(d, x, l)
        ensures Slot(r.d, x, l) == if x == i && l == NDIRECT + j then r.addr else Slot(d, x, l)
      {
        TakenSlots(d, r.addr, x, l);
        assert IsSlot(d, x, MAXFILE) && (x != i ==> Slot(d, x, MAXFILE) != table);
        EntrySlot(Taken(d, r.addr), i, table, j, r.addr, x, l);
      }
    }
  }

  lemma EntrySlot(d: Disk, i: nat, table: nat, j: nat, b: nat, x: nat, l: nat)
    requires Shaped(d) && table < |d.blocks| && j < NINDIRECT && b < WORD && IsSlot(d, x, l)
    requires i < |d.inodes| && d.inodes[i].addrs[NDIRECT] == table && table != 0
    requires x != i ==> d.inodes[x].addrs[NDIRECT] != table
    ensures Shaped(SetEntry(d, table, j, b))
    ensures Slot(SetEntry(d, table, j, b), x, l) == if x == i && l == NDIRECT + j then b else Slot(d, x, l)
  {
    hide WordAt, PutWord;
    if x == i && NDIRECT <= l < MAXFILE { PutWordAt(d.blocks[table], j, b, l - NDIRECT); }
  }

  // ---------- the bytes of the files ----------

  /** Byte `o` of the blocks of inode `i`; where there is no block it reads as 0. */
  function ByteAt(d: Disk, i: nat, o: nat): nat
    requires Shaped(d) && i < |d.inodes| && o < MAXFILE * BSIZE
  {
    var b := Slot(d, i, o / BSIZE);
    if b == 0 || b >= |d.blocks| then 0 else d.blocks[b][o % BSIZE]
  }

  predicate IsByte(d: Disk, i: nat, o: nat) { i < |d.inodes| && o < MAXFILE * BSIZE }

  /** The same bytes, sizes and addresses elsewhere: only free space was used. */
  ghost predicate SameBytes(d: Disk, d1: Disk) {
    && Shaped(d) && Shaped(d1) && |d1.inodes| == |d.inodes| && d1.meta == d.meta && |d1.used| == |d.used|
    && (forall i :: 0 <= i < |d.inodes| ==> d1.inodes[i].size == d.inodes[i].size)
    && (forall i: nat, o: nat :: IsByte(d, i, o) ==> ByteAt(d1, i, o) == ByteAt(d, i, o))
  }

  /** Installing a zeroed block changes no byte of any file, if no other data block changes. */
  lemma InstalledBytes(d: Disk, d1: Disk, i: nat, k: nat, b: nat)
    requires Inv(d) && Installed(d, d1, i, k, b) && d1.blocks[b] == Zeros()
    requires forall x :: 0 <= x < |d.blocks| && x != b && d1.blocks[x] != d.blocks[x] ==> x == Slot(d, i, MAXFILE)
    requires forall j :: 0 <= j < |d.inodes| ==> d1.inodes[j].size == d.inodes[j].size
    ensures SameBytes(d, d1)
  {
    hide Slot;
    forall j: nat, o: nat | IsByte(d, j, o) ensures ByteAt(d1, j, o) == ByteAt(d, j, o) {
      var l := o / BSIZE;
      assert IsSlot(d, j, l) && IsSlot(d, i, MAXFILE);
      assert Slot(d, j, l) != 0 ==> Slot(d, j, l) != Slot(d, i, MAXFILE) && Slot(d, j, l) != b;
    }
  }

  lemma SameBytesTransitive(d: Disk, d1: Disk, d2: Disk)
    requires SameBytes(d, d1) && SameBytes(d1, d2)
    ensures SameBytes(d, d2)
  {
    hide ByteAt;
    forall i: nat, o: nat | IsByte(d, i, o) ensures ByteAt(d2, i, o) == ByteAt(d, i, o) {
      assert IsByte(d1, i, o);
    }
  }

  /** What `bmap` and what uses it do to the addresses of all inodes: `d1` has those of `d`, and in
      empty slots of inode `i` perhaps new ones. */
  ghost predicate Extends(d: Disk, d1: Disk, i: nat) {
    && Inv(d1) && SameBytes(d, d1) && (NoLeak(d) ==> NoLeak(d1))
    && forall j: nat, l: nat :: IsSlot(d, j, l) && (j != i || Slot(d, j, l) != 0) ==> Slot(d1, j, l) == Slot(d, j, l)
  }

  lemma ExtendsSelf(d: Disk, i: nat)
    requires Inv(d)
    ensures Extends(d, d, i)
  {
  }

  lemma InstalledExtends(d: Disk, d1: Disk, i: nat, k: nat, b: nat)
    requires Inv(d) && Installed(d, d1, i, k, b) && d1.blocks[b] == Zeros()
    requires forall x :: 0 <= x < |d.blocks| && x != b && d1.blocks[x] != d.blocks[x] ==> x == Slot(d, i, MAXFILE)
    requires forall j :: 0 <= j < |d.inodes| ==> d1.inodes[j].size == d.inodes[j].size
    ensures Extends(d, d1, i)
  {
    hide Slot, NoLeak, SameBytes;
    InstalledInv(d, d1, i, k, b);
    InstalledBytes(d, d1, i, k, b);
    if NoLeak(d) { InstalledNoLeak(d, d1, i, k, b); }
  }

  lemma ExtendsTransitive(d: Disk, d1: Disk, d2: Disk, i: nat)
    requires Shaped(d) && Extends(d, d1, i) && Extends(d1, d2, i)
    ensures Extends(d, d2, i)
  {
    hide Slot, NoLeak, ByteAt;
    SameBytesTransitive(d, d1, d2);
    forall j: nat, l: nat | IsSlot(d, j, l) && (j != i || Slot(d, j, l) != 0) ensures Slot(d2, j, l) == Slot(d, j, l) {
      assert IsSlot(d1, j, l);
    }
  }

  lemma MapAddrExtends(d: Disk, i: nat, n: nat, op: bool)
    requires Inv(d) && i < |d.inodes| && n <= NDIRECT && MapAddr(d, i, n, op).Mapped?
    ensures var r := MapAddr(d, i, n, op);
      && Extends(d, r.d, i) && r.addr != 0 && Slot(r.d, i, if n < NDIRECT then n else MAXFILE) == r.addr
  {
    hide SameBytes, NoLeak;
    var r := MapAddr(d, i, n, op);
    if d.inodes[i].addrs[n] == 0 {
      AddrInstalled(d, i, n, op);
      InstalledExtends(d, r.d, i, if n < NDIRECT then n else MAXFILE, r.addr);
    } else {
      ExtendsSelf(d, i);
    }
  }

  lemma MapEntryExtends(d: Disk, i: nat, j: nat, op: bool)
    requires Inv(d) && i < |d.inodes| && j < NINDIRECT && d.inodes[i].addrs[NDIRECT] != 0
    requires d.inodes[i].addrs[NDIRECT] < |d.blocks| && MapEntry(d, d.inodes[i].addrs[NDIRECT], j, op).Mapped?
    ensures var r := MapEntry(d, d.inodes[i].addrs[NDIRECT], j, op);
      Extends(d, r.d, i) && r.addr != 0 && Slot(r.d, i, NDIRECT + j) == r.addr
  {
    hide SameBytes, NoLeak, WordAt, PutWord;
    var r := MapEntry(d, d.inodes[i].addrs[NDIRECT], j, op);
    EntryInstalled(d, i, j, op);
    if Slot(d, i, NDIRECT + j) == 0 {
      InstalledExtends(d, r.d, i, NDIRECT + j, r.addr);
    } else {
      ExtendsSelf(d, i);
    }
  }

  /** `bmap` gives the block in the slot asked for, with a fresh one where there was none; all
      addresses stay distinct and marked as used, and no byte of any file changes. */
  lemma BmapOk(d: Disk, i: nat, bn: nat, op: bool)
    requires Inv(d) && i < |d.inodes| && bn < MAXFILE && Bmap(d, i, bn, op).Mapped?
    ensures var r := Bmap(d, i, bn, op); Extends(d, r.d, i) && r.addr != 0 && Slot(r.d, i, bn) == r.addr
  {
    hide ByteAt, NoLeak, MapAddr, MapEntry;
    if bn < NDIRECT {
      MapAddrExtends(d, i, bn, op);
    } else {
      MapAddrExtends(d, i, NDIRECT, op);
      var r := MapAddr(d, i, NDIRECT, op);
      MapEntryExtends(r.d, i, bn - NDIRECT, op);
      ExtendsTransitive(d, r.d, Bmap(d, i, bn, op).d, i);
    }
  }

  /** How many blocks are free. */
  function FreeCount(used: seq<bool>): nat {
    if used == [] then 0 else (if used[0] then 0 else 1) + FreeCount(used[1..])
  }

  lemma {:induction false} FreeCountTake(used: seq<bool>, b: nat)
    requires b < |used| && !used[b]
    ensures FreeCount(used) == FreeCount(used[b := true]) + 1
  {
    if b > 0 {
      FreeCountTake(used[1..], b - 1);
      assert used[b := true][1..] == used[1..][b - 1 := true];
    } else {
      assert used[b := true][1..] == used[1..];
    }
  }

  lemma {:induction false} FreeCountZero(used: seq<bool>)
    ensures FreeCount(used) == 0 <==> false !in used
  {
    if used == [] {
    } else {
      FreeCountZero(used[1..]);
      assert used == [used[0]] + used[1..];
    }
  }

  /** How many blocks it takes to have one in the slot. */
  function Needed(d: Disk, i: nat, bn: nat): nat
    requires Shaped(d) && i < |d.inodes| && bn < MAXFILE
  {
    (if Slot(d, i, bn) == 0 then 1 else 0) + (if bn >= NDIRECT && Slot(d, i, MAXFILE) == 0 then 1 else 0)
  }

  /** Too few blocks are free for `need` more, or none may be taken. */
  predicate Short(used: seq<bool>, need: nat, op: bool) { FreeCount(used) < need || (!op && 0 < need) }

  lemma MapAddrCount(d: Disk, i: nat, n: nat, op: bool)
    requires Shaped(d) && i < |d.inodes| && n <= NDIRECT
    ensures var r, need := MapAddr(d, i, n, op), if d.inodes[i].addrs[n] == 0 then 1 else 0;
      && (r == Panic <==> Short(d.used, need, op))
      && (r.Mapped? ==> FreeCount(r.d.used) == FreeCount(d.used) - need)
  {
    FreeCountZero(d.used);
    var b := IndexOf(d.used, false);
    if b < |d.used| { FreeCountTake(d.used, b); }
  }

  lemma MapEntryCount(d: Disk, table: nat, j: nat, op: bool)
    requires Shaped(d) && j < NINDIRECT && table < |d.blocks|
    ensures var r, need := MapEntry(d, table, j, op), if WordAt(d.blocks[table], j) == 0 then 1 else 0;
      && (r == Panic <==> Short(d.used, need, op))
      && (r.Mapped? ==> FreeCount(r.d.used) == FreeCount(d.used) - need)
  {
    FreeCountZero(d.used);
    var b := IndexOf(d.used, false);
    if b < |d.used| { FreeCountTake(d.used, b); }
  }

  /** `bmap` panics exactly for a block number out of range, when too few blocks are free, and when it
      has to take one while no operation is under way; else it takes as many as it needs. */
  lemma BmapPanicsExactly(d: Disk, i: nat, bn: nat, op: bool)
    requires Inv(d) && i < |d.inodes|
    ensures Bmap(d, i, bn, op) == Panic <==> bn >= MAXFILE || Short(d.used, Needed(d, i, bn), op)
    ensures Bmap(d, i, bn, op).Mapped? ==> FreeCount(Bmap(d, i, bn, op).d.used) == FreeCount(d.used) - Needed(d, i, bn)
  {
    hide MapAddr, MapEntry, WordAt, ByteAt, SlotsDistinct, NoLeak;
    if bn < NDIRECT {
      MapAddrCount(d, i, bn, op);
    } else if bn < MAXFILE {
      MapAddrCount(d, i, NDIRECT, op);
      var r := MapAddr(d, i, NDIRECT, op);
      if r.Mapped? {
        MapAddrExtends(d, i, NDIRECT, op);
        assert IsSlot(r.d, i, MAXFILE) && IsSlot(d, i, bn);
        MapEntryCount(r.d, r.addr, bn - NDIRECT, op);
        SlotKept(d, i, bn, op);
      }
    }
  }

  lemma SlotKept(d: Disk, i: nat, bn: nat, op: bool)
    requires Inv(d) && i < |d.inodes| && bn < MAXFILE && MapAddr(d, i, NDIRECT, op).Mapped?
    ensures var r := MapAddr(d, i, NDIRECT, op); Shaped(r.d) && i < |r.d.inodes| && Slot(r.d, i, bn) == Slot(d, i, bn)
  {
    if d.inodes[i].addrs[NDIRECT] == 0 {
      AddrInstalled(d, i, NDIRECT, op);
      assert IsSlot(d, i, bn);
    }
  }

  /** `bmap` leaves all slots of the inode but the one asked for and that of the indirect block. */
  lemma BmapElsewhere(d: Disk, i: nat, bn: nat, l: nat, op: bool)
    requires Inv(d) && i < |d.inodes| && bn < MAXFILE && Bmap(d, i, bn, op).Mapped? && l <= MAXFILE
    requires l != bn && (l == MAXFILE ==> bn < NDIRECT)
    ensures var r := Bmap(d, i, bn, op); Shaped(r.d) && i < |r.d.inodes| && Slot(r.d, i, l) == Slot(d, i, l)
  {
    hide MapAddr, MapEntry, WordAt, ByteAt, NoLeak;
    BmapOk(d, i, bn, op);
    assert IsSlot(d, i, l);
    if bn < NDIRECT {
      if d.inodes[i].addrs[bn] == 0 { AddrInstalled(d, i, bn, op); } else { MapAddrThere(d, i, bn, op); }
    } else {
      MapAddrExtends(d, i, NDIRECT, op);
      var r := MapAddr(d, i, NDIRECT, op);
      SlotKept(d, i, l, op);
      EntryInstalled(r.d, i, bn - NDIRECT, op);
      if Slot(r.d, i, bn) != 0 { MapEntryThere(r.d, r.addr, bn - NDIRECT, op); }
      assert IsSlot(r.d, i, l);
    }
  }

  lemma MapAddrThere(d: Disk, i: nat, n: nat, op: bool)
    requires Shaped(d) && i < |d.inodes| && n <= NDIRECT && d.inodes[i].addrs[n] != 0
    ensures MapAddr(d, i, n, op) == Mapped(d, d.inodes[i].addrs[n])
  {
  }

  lemma MapEntryThere(d: Disk, table: nat, j: nat, op: bool)
    requires Shaped(d) && j < NINDIRECT && table < |d.blocks| && WordAt(d.blocks[table], j) != 0
    ensures MapEntry(d, table, j, op) == Mapped(d, WordAt(d.blocks[table], j))
  {
  }

  /** Where there is a block, `bmap` changes nothing. */
  lemma BmapThere(d: Disk, i: nat, bn: nat, op: bool)
    requires Inv(d) && i < |d.inodes| && bn < MAXFILE && Slot(d, i, bn) != 0
    ensures Bmap(d, i, bn, op) == Mapped(d, Slot(d, i, bn))
  {
  }

  // ---------- itrunc ----------

  /** The free map with the blocks in the first `n` slots of inode `i` freed. */
  function Unmarked(d: Disk, i: nat, n: nat): (r: seq<bool>)
    requires Shaped(d) && i < |d.inodes| && n <= MAXFILE + 1
    ensures |r| == |d.used|
  {
    if n == 0 then d.used
    else
      var r, b := Unmarked(d, i, n - 1), Slot(d, i, n - 1);
      if b == 0 || b >= |r| then r else r[b := false]
  }

  function NoAddrs(): seq<nat> { seq(NDIRECT + 1, k => 0) }

  function Truncated(d: Disk, i: nat): Disk
    requires Shaped(d) && i < |d.inodes|
  {
    d.(used := Unmarked(d, i, MAXFILE + 1), inodes := d.inodes[i := Inode(NoAddrs(), 0)])
  }

  /** A bit is cleared exactly if its block is in one of the slots. */
  lemma {:induction false} UnmarkedAt(d: Disk, i: nat, n: nat, b: nat)
    requires Inv(d) && i < |d.inodes| && n <= MAXFILE + 1 && d.meta <= b < |d.used|
    ensures Unmarked(d, i, n)[b] <==> d.used[b] && forall k :: 0 <= k < n ==> Slot(d, i, k) != b
  {
    hide Slot;
    if n == 0 {
    } else {
      UnmarkedAt(d, i, n - 1, b);
      assert IsSlot(d, i, n - 1);
    }
  }

  lemma {:induction false} UnmarkedMeta(d: Disk, i: nat, n: nat, b: nat)
    requires Inv(d) && i < |d.inodes| && n <= MAXFILE + 1 && b < d.meta
    ensures Unmarked(d, i, n)[b]
  {
    hide Slot;
    if n == 0 {
    } else {
      UnmarkedMeta(d, i, n - 1, b);
      assert IsSlot(d, i, n - 1);
    }
  }

  /** The panic "freeing free block" cannot happen: each slot's block is still marked when its turn
      comes. */
  lemma NeverFreesFree(d: Disk, i: nat, n: nat)
    requires Inv(d) && i < |d.inodes| && n <= MAXFILE && Slot(d, i, n) != 0
    ensures Slot(d, i, n) < |d.used| && Unmarked(d, i, n)[Slot(d, i, n)]
  {
    hide Slot;
    assert IsSlot(d, i, n);
    UnmarkedAt(d, i, n, Slot(d, i, n));
    forall k | 0 <= k < n ensures Slot(d, i, k) != Slot(d, i, n) {
      assert IsSlot(d, i, k);
    }
  }

  lemma TruncatedSlots(d: Disk, i: nat, j: nat, l: nat)
    requires Shaped(d) && i < |d.inodes| && IsSlot(d, j, l)
    ensures Shaped(Truncated(d, i)) && Slot(Truncated(d, i), j, l) == if j == i then 0 else Slot(d, j, l)
  {
    hide Unmarked, WordAt;
  }

  /** `itrunc` frees exactly the blocks of the inode, and leaves every other file as it was. */
  lemma TruncatedOk(d: Disk, i: nat)
    requires Inv(d) && i < |d.inodes|
    ensures var d1 := Truncated(d, i);
      && Inv(d1) && (NoLeak(d) ==> NoLeak(d1)) && d1.inodes[i].size == 0
      && (forall b :: d.meta <= b < |d.used| ==>
        (d1.used[b] <==> d.used[b] && forall k: nat :: IsSlot(d, i, k) ==> Slot(d, i, k) != b))
      && forall j: nat, o: nat :: IsByte(d, j, o) ==> ByteAt(d1, j, o) == if j == i then 0 else ByteAt(d, j, o)
  {
    hide Slot, Unmarked;
    var d1 := Truncated(d, i);
    forall j: nat, l: nat | IsSlot(d, j, l) ensures Shaped(d1) && Slot(d1, j, l) == if j == i then 0 else Slot(d, j, l) {
      TruncatedSlots(d, i, j, l);
    }
    assert IsSlot(d, i, 0);
    forall b | d.meta <= b < |d.used|
      ensures d1.used[b] <==> d.used[b] && forall k: nat :: IsSlot(d, i, k) ==> Slot(d, i, k) != b
    {
      UnmarkedAt(d, i, MAXFILE + 1, b);
      assert forall k: nat :: IsSlot(d, i, k) <==> k < MAXFILE + 1;
    }
    forall b | 0 <= b < d.meta ensures d1.used[b] { UnmarkedMeta(d, i, MAXFILE + 1, b); }
    TruncatedInv(d, d1, i);
  }

  lemma TruncatedInv(d: Disk, d1: Disk, i: nat)
    requires Inv(d) && i < |d.inodes| && Shaped(d1) && |d1.inodes| == |d.inodes| && d1.meta == d.meta && d1.blocks == d.blocks
    requires forall j: nat, l: nat :: IsSlot(d, j, l) ==> Slot(d1, j, l) == if j == i then 0 else Slot(d, j, l)
    requires forall b :: d.meta <= b < |d.used| ==>
      (d1.used[b] <==> d.used[b] && forall k: nat :: IsSlot(d, i, k) ==> Slot(d, i, k) != b)
    requires forall b :: 0 <= b < d.meta ==> d1.used[b]
    ensures Inv(d1) && (NoLeak(d) ==> NoLeak(d1))
    ensures forall j: nat, o: nat :: IsByte(d, j, o) ==> ByteAt(d1, j, o) == if j == i then 0 else ByteAt(d, j, o)
  {
    hide Slot;
    assert SlotsDistinct(d1);
    assert SlotsUsed(d1);
    forall j: nat, o: nat | IsByte(d, j, o) ensures ByteAt(d1, j, o) == if j == i then 0 else ByteAt(d, j, o) {
      assert IsSlot(d, j, o / BSIZE);
    }
    if NoLeak(d) {
      forall b | d1.meta <= b < |d1.used| && d1.used[b] ensures exists j: nat, l: nat :: IsSlot(d1, j, l) && Slot(d1, j, l) == b {
        var j: nat, l: nat :| IsSlot(d, j, l) && Slot(d, j, l) == b;
        assert IsSlot(d1, j, l);
      }
    }
  }
}
