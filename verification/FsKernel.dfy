/**
`balloc` to `writei` of `fs.c`, and `fileread` and `filewrite` of `file.c`, as they work on the free map,
bit by bit, the blocks and the inodes.
*/
module FsKernel {
  import opened Base
  import opened Fs
  import opened FsSpace
  import opened FsFile
  import opened FsWrite

  // ---------- bits ----------

  /** 1 shifted left by `k`. */
  function Mask(k: nat): bv8
    requires k < 8
  {
    if k == 0 then 0x01 else if k == 1 then 0x02 else if k == 2 then 0x04 else if k == 3 then 0x08
    else if k == 4 then 0x10 else if k == 5 then 0x20 else if k == 6 then 0x40 else 0x80
  }

  predicate HasBit(x: bv8, k: nat)
    requires k < 8
  {
    x & Mask(k) != 0
  }

  function WithBit(x: bv8, k: nat): bv8
    requires k < 8
  {
    x | Mask(k)
  }

  function WithoutBit(x: bv8, k: nat): bv8
    requires k < 8
  {
    x & !Mask(k)
  }

  lemma MasksApart(j: nat, k: nat)
    requires j < 8 && k < 8
    ensures Mask(k) != 0 && (j != k ==> Mask(k) & Mask(j) == 0)
  {
  }

  lemma OrMask(x: bv8, m: bv8, n: bv8)
    ensures (x | m) & m == m && (m & n == 0 ==> (x | m) & n == x & n)
  {
  }

  lemma AndNotMask(x: bv8, m: bv8, n: bv8)
    ensures (x & !m) & m == 0 && (m & n == 0 ==> (x & !m) & n == x & n)
  {
  }

  lemma WithBitHas(x: bv8, k: nat, j: nat)
    requires k < 8 && j < 8
    ensures HasBit(WithBit(x, k), j) <==> j == k || HasBit(x, j)
  {
    MasksApart(j, k);
    OrMask(x, Mask(k), Mask(j));
  }

  lemma WithoutBitHas(x: bv8, k: nat, j: nat)
    requires k < 8 && j < 8
    ensures HasBit(WithoutBit(x, k), j) <==> j != k && HasBit(x, j)
  {
    MasksApart(j, k);
    AndNotMask(x, Mask(k), Mask(j));
  }

  /** The bit of block `b` in the bytes of the free map. */
  predicate Bit(bytes: seq<bv8>, b: nat)
    requires b < 8 * |bytes|
  {
    HasBit(bytes[b / 8], b % 8)
  }

  /** The free map as the bits say. */
  function Bits(bytes: seq<bv8>, n: nat): (r: seq<bool>)
    requires n <= 8 * |bytes|
    ensures |r| == n && forall b :: 0 <= b < n ==> r[b] == Bit(bytes, b)
  {
    seq(n, b requires 0 <= b < n => Bit(bytes, b))
  }

  lemma SetBits(bytes: seq<bv8>, n: nat, b: nat)
    requires n <= 8 * |bytes| && b < n
    ensures Bits(bytes[b / 8 := WithBit(bytes[b / 8], b % 8)], n) == Bits(bytes, n)[b := true]
  {
    hide HasBit, WithBit;
    var bytes1 := bytes[b / 8 := WithBit(bytes[b / 8], b % 8)];
    forall x | 0 <= x < n ensures Bit(bytes1, x) <==> x == b || Bit(bytes, x) {
      if x / 8 == b / 8 { WithBitHas(bytes[b / 8], b % 8, x % 8); }
    }
  }

  lemma ClearBits(bytes: seq<bv8>, n: nat, b: nat)
    requires n <= 8 * |bytes| && b < n
    ensures Bits(bytes[b / 8 := WithoutBit(bytes[b / 8], b % 8)], n) == Bits(bytes, n)[b := false]
  {
    hide HasBit, WithoutBit;
    var bytes1 := bytes[b / 8 := WithoutBit(bytes[b / 8], b % 8)];
    forall x | 0 <= x < n ensures Bit(bytes1, x) <==> x != b && Bit(bytes, x) {
      if x / 8 == b / 8 { WithoutBitHas(bytes[b / 8], b % 8, x % 8); }
    }
  }

  ghost predicate Separate(a: object, b: object, c: object) { a != b && a != c && b != c }

  class FileSystem {
    const meta: nat
    const bitmap: array<bv8>
    const blocks: array<Bytes>
    const inodes: array<Inode>

    constructor (meta: nat, bitmap: array<bv8>, blocks: array<Bytes>, inodes: array<Inode>)
      requires blocks.Length <= 8 * bitmap.Length && Separate(bitmap, blocks, inodes)
      ensures Fits() && this.meta == meta && this.bitmap == bitmap && this.blocks == blocks && this.inodes == inodes
    {
      this.meta, this.bitmap, this.blocks, this.inodes := meta, bitmap, blocks, inodes;
    }

    ghost predicate Fits() { blocks.Length <= 8 * bitmap.Length && Separate(bitmap, blocks, inodes) }

    ghost function View(): Disk
      requires Fits()
      reads bitmap, blocks, inodes
    {
      Disk(meta, Bits(bitmap[..], blocks.Length), blocks[..], inodes[..])
    }

    ghost predicate Valid()
      reads bitmap, blocks, inodes
    {
      Fits() && Inv(View())
    }

    // ---------- blocks ----------

    /** The search of `balloc`: a block of the free map at a time, a bit at a time. */
    method FindFree() returns (b: nat)
      requires Fits()
      ensures b == IndexOf(Bits(bitmap[..], blocks.Length), false)
    {
      hide HasBit;
      ghost var used := Bits(bitmap[..], blocks.Length);
      var base := 0;
      while base < blocks.Length
        invariant base % BPB == 0 && AllUsed(used, base)
      {
        var found, bi := FindIn(base);
        if found { return base + bi; }
        base := base + BPB;
      }
      FirstIs(used, |used|);
      return blocks.Length;
    }

    /** The inner loop, over the bits of one block. */
    method FindIn(base: nat) returns (found: bool, bi: nat)
      requires Fits() && base % BPB == 0 && base < blocks.Length && AllUsed(Bits(bitmap[..], blocks.Length), base)
      ensures if found then base + bi == IndexOf(Bits(bitmap[..], blocks.Length), false) && base + bi < blocks.Length
        else AllUsed(Bits(bitmap[..], blocks.Length), base + BPB)
    {
      hide HasBit;
      ghost var used := Bits(bitmap[..], blocks.Length);
      bi := 0;
      while bi < BPB && base + bi < blocks.Length
        invariant bi <= BPB && base + bi <= blocks.Length && AllUsed(used, base + bi)
      {
        BitPlace(base, bi);
        if !HasBit(bitmap[base / 8 + bi / 8], bi % 8) {
          assert !used[base + bi];
          FirstIs(used, base + bi);
          return true, bi;
        }
        assert used[base + bi];
        bi := bi + 1;
      }
      return false, bi;
    }

    method Mark(b: nat)
      requires Fits() && b < blocks.Length
      modifies bitmap
      ensures View() == old(View()).(used := old(View()).used[b := true])
    {
      hide HasBit, WithBit, Bits;
      SetBits(bitmap[..], blocks.Length, b);
      ghost var before := bitmap[..];
      bitmap[b / 8] := WithBit(bitmap[b / 8], b % 8);
      assert bitmap[..] == before[b / 8 := WithBit(before[b / 8], b % 8)];
    }

    /** `bfree` of a block; false stands for the panic on a block that is free. */
    method Bfree(b: nat) returns (ok: bool)
      requires Fits() && b < blocks.Length
      modifies bitmap
      ensures ok == old(View()).used[b]
      ensures View() == if ok then old(View()).(used := old(View()).used[b := false]) else old(View())
    {
      hide HasBit, WithoutBit;
      if !HasBit(bitmap[b / 8], b % 8) { return false; }
      ClearBits(bitmap[..], blocks.Length, b);
      ghost var before := bitmap[..];
      bitmap[b / 8] := WithoutBit(bitmap[b / 8], b % 8);
      assert bitmap[..] == before[b / 8 := WithoutBit(before[b / 8], b % 8)];
      return true;
    }

    /** `balloc`; no result stands for its panics, for want of a block or, in `log_write`, of an operation. */
    method Balloc(op: bool) returns (r: Option<nat>)
      requires Fits() && Shaped(View())
      modifies bitmap, blocks
      ensures Fs.Balloc(old(View()), op) == if r.Some? then Mapped(View(), r.value) else Panic
      ensures r.None? ==> View() == old(View())
    {
      hide Bits;
      var b := FindFree();
      if b == blocks.Length || !op { return None; }
      Mark(b);
      blocks[b] := Zeros();
      return Some(b);
    }

    method MapAddr(i: nat, n: nat, op: bool) returns (r: Option<nat>)
      requires Fits() && Shaped(View()) && i < inodes.Length && n <= NDIRECT
      modifies bitmap, blocks, inodes
      ensures Fs.MapAddr(old(View()), i, n, op) == if r.Some? then Mapped(View(), r.value) else Panic
      ensures r.None? ==> View() == old(View())
    {
      hide Bits, IndexOf;
      var addr := inodes[i].addrs[n];
      if addr != 0 { return Some(addr); }
      r := Balloc(op);
      if r.Some? { inodes[i] := inodes[i].(addrs := inodes[i].addrs[n := r.value]); }
    }

    method MapEntry(table: nat, j: nat, op: bool) returns (r: Option<nat>)
      requires Fits() && Shaped(View()) && table < blocks.Length && j < NINDIRECT
      modifies bitmap, blocks
      ensures Fs.MapEntry(old(View()), table, j, op) == if r.Some? then Mapped(View(), r.value) else Panic
      ensures r.None? ==> View() == old(View())
    {
      hide Bits, IndexOf, WordAt, PutWord;
      var addr := WordAt(blocks[table], j);
      if addr != 0 { return Some(addr); }
      r := Balloc(op);
      if r.Some? { blocks[table] := PutWord(blocks[table], j, r.value); }
    }

    /** `bmap`; no result stands for its panics. */
    method BmapBlock(i: nat, bn: nat, op: bool) returns (r: Option<nat>)
      requires Valid() && i < inodes.Length
      modifies bitmap, blocks, inodes
      ensures Fits() && Bmap(old(View()), i, bn, op) == if r.Some? then Mapped(View(), r.value) else Panic
      ensures r.Some? ==> Valid() && Extends(old(View()), View(), i) && r.value < blocks.Length
    {
      hide Bits, Fs.MapAddr, Fs.MapEntry, SlotsUsed, SlotsDistinct, NoLeak, ByteAt;
      if bn < MAXFILE && Bmap(View(), i, bn, op).Mapped? { BmapFacts(View(), i, bn, op); }
      if bn < NDIRECT {
        r := MapAddr(i, bn, op);
      } else if bn < MAXFILE {
        if Fs.MapAddr(View(), i, NDIRECT, op).Mapped? { TableFacts(View(), i, op); }
        r := MapAddr(i, NDIRECT, op);
        if r.Some? { r := MapEntry(r.value, bn - NDIRECT, op); }
      } else {
        r := None;
      }
    }

    // ---------- itrunc ----------

    /** One turn of the loops of `itrunc`: the block of slot `k` is freed, which cannot fail. */
    method FreeSlot(ghost d: Disk, ghost i: nat, ghost k: nat, b: nat)
      requires Fits() && Inv(d) && i < |d.inodes| && k <= MAXFILE && |d.blocks| == blocks.Length
      requires b == Slot(d, i, k) && View().used == Unmarked(d, i, k)
      modifies bitmap
      ensures View() == old(View()).(used := Unmarked(d, i, k + 1))
    {
      hide Bits, Slot, SlotsUsed, SlotsDistinct;
      if b != 0 {
        NeverFreesFree(d, i, k);
        var ok := Bfree(b);
        assert ok;
      }
    }

    method FreeDirect(i: nat)
      requires Valid() && i < inodes.Length
      modifies bitmap, inodes
      ensures Fits() && View() == Cleared(old(View()), i, NDIRECT)
    {
      hide Bits, Slot, SlotsUsed, SlotsDistinct, Unmarked;
      ghost var d := View();
      ClearedNone(d, i);
      var k := 0;
      while k < NDIRECT
        invariant k <= NDIRECT && Fits() && View() == Cleared(d, i, k)
      {
        ClearedNext(d, i, k);
        var b := inodes[i].addrs[k];
        FreeSlot(d, i, k, b);
        if b != 0 { inodes[i] := inodes[i].(addrs := inodes[i].addrs[k := 0]); }
        k := k + 1;
      }
    }

    method FreeEntries(ghost d: Disk, ghost i: nat, table: nat)
      requires Fits() && Inv(d) && i < |d.inodes| && |d.blocks| == blocks.Length
      requires table == Slot(d, i, MAXFILE) && 0 != table < blocks.Length && blocks[table] == d.blocks[table]
      requires View().used == Unmarked(d, i, NDIRECT)
      modifies bitmap
      ensures View() == old(View()).(used := Unmarked(d, i, MAXFILE))
    {
      hide Bits, SlotsUsed, SlotsDistinct, Unmarked, WordAt;
      var j := 0;
      while j < NINDIRECT
        invariant j <= NINDIRECT && View() == old(View()).(used := Unmarked(d, i, NDIRECT + j))
      {
        FreeSlot(d, i, NDIRECT + j, WordAt(blocks[table], j));
        j := j + 1;
      }
    }

    /** `itrunc` */
    method Itrunc(i: nat)
      requires Valid() && i < inodes.Length
      modifies bitmap, inodes
      ensures Valid() && View() == Truncated(old(View()), i)
    {
      hide Bits, SlotsUsed, SlotsDistinct, Unmarked, WordAt, NoLeak, ByteAt;
      ghost var d := View();
      TruncatedOk(d, i);
      assert IsSlot(d, i, MAXFILE);
      FreeDirect(i);
      var table := inodes[i].addrs[NDIRECT];
      if table != 0 {
        assert d.meta <= table < |d.used| by { SlotInRange(d, i, MAXFILE); }
        FreeEntries(d, i, table);
        FreeSlot(d, i, MAXFILE, table);
        inodes[i] := inodes[i].(addrs := inodes[i].addrs[NDIRECT := 0]);
      } else {
        NoTable(d, i, MAXFILE + 1);
      }
      inodes[i] := inodes[i].(size := 0);
      assert inodes[i] == Inode(NoAddrs(), 0);
      assert inodes[..] == d.inodes[i := Inode(NoAddrs(), 0)];
    }

    // ---------- readi and writei ----------

    /** One turn of the loop of `writei`; no result stands for a panic of `bmap`. */
    method WriteBlock(i: nat, off: nat, src: Bytes, tot: nat) returns (m: Option<nat>)
      requires Valid() && i < inodes.Length && tot < |src| && off + |src| <= MAXBYTES
      modifies bitmap, blocks, inodes
      ensures Fits() && (m.Some? ==> Valid() && 0 < m.value <= |src| - tot)
      ensures WriteFrom(old(View()), i, off + tot, src[tot..]) ==
        if m.Some? then WriteFrom(View(), i, off + tot + m.value, src[tot + m.value..]) else Panicked
    {
      hide Bits, SlotsUsed, SlotsDistinct, NoLeak, ByteAt, Slot, Bmap, Wrote;
      ghost var d := View();
      var at := off + tot;
      if Bmap(d, i, at / BSIZE, true).Mapped? { BmapFacts(d, i, at / BSIZE, true); }
      var b := BmapBlock(i, at / BSIZE, true);
      if b.None? { return None; }
      var n := Piece(at, |src| - tot);
      assert src[tot..][..n] == src[tot..tot + n] && src[tot..][n..] == src[tot + n..];
      StoreWrote(View(), i, at, src[tot..tot + n]);
      WroteInv(View(), Store(View(), b.value, Splice(blocks[b.value], at % BSIZE, src[tot..tot + n])), i, at, src[tot..tot + n]);
      blocks[b.value] := Splice(blocks[b.value], at % BSIZE, src[tot..tot + n]);
      return Some(n);
    }

    method WriteLoop(i: nat, off: nat, src: Bytes) returns (ok: bool)
      requires Valid() && i < inodes.Length && off + |src| <= MAXBYTES
      modifies bitmap, blocks, inodes
      ensures Fits() && (ok ==> Valid()) && WriteFrom(old(View()), i, off, src) == if ok then Written(View()) else Panicked
    {
      hide Bits, SlotsUsed, SlotsDistinct, NoLeak, ByteAt, Slot, Bmap;
      ghost var d := View();
      var tot := 0;
      assert src[0..] == src;
      while tot < |src|
        invariant tot <= |src| && Valid() && WriteFrom(d, i, off, src) == WriteFrom(View(), i, off + tot, src[tot..])
      {
        var m := WriteBlock(i, off, src, tot);
        if m.None? { return false; }
        tot := tot + m.value;
      }
      return true;
    }

    /** `writei`, on a file. */
    method WriteInode(i: nat, off: nat, src: Bytes) returns (r: Code)
      requires Fits() && Good(View()) && i < inodes.Length
      modifies bitmap, blocks, inodes
      ensures Fits() && r == CodeOf(Writei(old(View()), i, off, src))
      ensures r.Count? ==> Good(View()) && Writei(old(View()), i, off, src).d == View()
      ensures r == MinusOne ==> View() == old(View())
    {
      hide Bits, SlotsUsed, SlotsDistinct, NoLeak, ByteAt, Slot, WriteFrom, Contents;
      ghost var d := View();
      if Writei(d, i, off, src).Done? { WriteiOk(d, i, off, src); }
      if off > inodes[i].size || off + |src| >= WORD { return MinusOne; }
      if off + |src| > MAXBYTES { return MinusOne; }
      var ok := WriteLoop(i, off, src);
      if !ok { return Halt; }
      if |src| > 0 && off + |src| > inodes[i].size { inodes[i] := inodes[i].(size := off + |src|); }
      return Count(|src|);
    }

    /** `readi`, on a file; the bytes come with a count. */
    method ReadInode(i: nat, off: nat, n: nat, op: bool) returns (r: Code, dst: Bytes)
      requires Fits() && Good(View()) && i < inodes.Length
      modifies bitmap, blocks, inodes
      ensures Fits()
      ensures match Readi(old(View()), i, off, n, op)
        case ReadCrashed => r == Halt
        case ReadRefused => r == MinusOne && View() == old(View())
        case Gave(d, bytes) => r == Count(|bytes|) && dst == bytes && View() == d && Good(View())
    {
      hide Bits, SlotsUsed, SlotsDistinct, NoLeak, ByteAt, Slot, ReadFrom, Contents;
      dst := [];
      if Readi(View(), i, off, n, op).Gave? { ReadiOk(View(), i, off, n, op); }
      if off > inodes[i].size || off + n >= WORD { return MinusOne, dst; }
      var m := if off + n > inodes[i].size then inodes[i].size - off else n;
      var ok;
      ok, dst := ReadLoop(i, off, m, op);
      if !ok { return Halt, dst; }
      return Count(|dst|), dst;
    }

    method ReadLoop(i: nat, off: nat, n: nat, op: bool) returns (ok: bool, dst: Bytes)
      requires Valid() && i < inodes.Length && off + n <= MAXBYTES
      modifies bitmap, blocks, inodes
      ensures Fits() && ReadFrom(old(View()), i, off, n, op) == if ok then Read(View(), dst) else ReadPanicked
    {
      hide Bits, SlotsUsed, SlotsDistinct, NoLeak, ByteAt, Slot, Bmap, ReadFrom;
      ghost var d := View();
      var tot := 0;
      dst := [];
      NothingBefore(ReadFrom(d, i, off, n, op));
      while tot < n
        invariant tot <= n && Valid()
        invariant ReadFrom(d, i, off, n, op) == After(dst, ReadFrom(View(), i, off + tot, n - tot, op))
      {
        var piece := ReadBlock(i, off + tot, n - tot, op);
        if piece.None? { return false, dst; }
        AfterPiece(dst, piece.value, ReadFrom(View(), i, off + tot + |piece.value|, n - tot - |piece.value|, op));
        dst := dst + piece.value;
        tot := tot + |piece.value|;
      }
      NothingLeft(View(), i, off + n, dst, op);
      return true, dst;
    }

    /** One turn of it: the piece in one block. */
    method ReadBlock(i: nat, off: nat, n: nat, op: bool) returns (piece: Option<Bytes>)
      requires Valid() && i < inodes.Length && 0 < n && off + n <= MAXBYTES
      modifies bitmap, blocks, inodes
      ensures Fits() && (piece.Some? ==> Valid() && 0 < |piece.value| <= n)
      ensures ReadFrom(old(View()), i, off, n, op) ==
        if piece.Some? then After(piece.value, ReadFrom(View(), i, off + |piece.value|, n - |piece.value|, op)) else ReadPanicked
    {
      hide Bits, SlotsUsed, SlotsDistinct, NoLeak, ByteAt, Slot, Bmap;
      var b := BmapBlock(i, off / BSIZE, op);
      if b.None? { return None; }
      var m := Piece(off, n);
      return Some(blocks[b.value][off % BSIZE..off % BSIZE + m]);
    }

    /** `fileread` on a file at offset `off`: the result, and the offset it leaves. */
    method FileRead(i: nat, off: nat, n: nat, op: bool) returns (r: Code, dst: Bytes, newOff: nat)
      requires Fits() && Good(View()) && i < inodes.Length
      modifies bitmap, blocks, inodes
      ensures Fits()
      ensures match FsFile.FileRead(old(View()), i, off, n, op)
        case (ReadCrashed, _) => r == Halt
        case (ReadRefused, off1) => r == MinusOne && View() == old(View()) && newOff == off1
        case (Gave(d, bytes), off1) => r == Count(|bytes|) && dst == bytes && View() == d && Good(View()) && newOff == off1
    {
      hide Readi, Bits, SlotsUsed, SlotsDistinct, NoLeak, ByteAt, Slot;
      r, dst := ReadInode(i, off, n, op);
      newOff := off;
      if r.Count? { newOff := newOff + r.n; }
    }

    /** `filewrite` on a file from offset `off`: the result, and the offset it leaves. */
    method FileWrite(i: nat, off: nat, addr: Bytes) returns (r: Code, newOff: nat)
      requires Fits() && Good(View()) && i < inodes.Length
      modifies bitmap, blocks, inodes
      ensures Fits()
      ensures match FsWrite.FileWrite(old(View()), i, off, addr)
        case FileCrashed => r == Halt
        case Filed(d, off1, w) => Good(View()) && View() == d && newOff == off1 && r == if w == |addr| then Count(w) else MinusOne
    {
      hide Bits, SlotsUsed, SlotsDistinct, NoLeak, ByteAt, Slot, Writei;
      ghost var d := View();
      var n := 0;
      newOff := off;
      assert addr[0..] == addr;
      while n < |addr|
        invariant n <= |addr| && Fits() && Good(View()) && newOff == off + n
        invariant FsWrite.FileWrite(d, i, off, addr) == Later(FsWrite.FileWrite(View(), i, newOff, addr[n..]), n)
      {
        var n1 := if |addr| - n > CHUNK then CHUNK else |addr| - n;
        assert addr[n..][..n1] == addr[n..n + n1] && addr[n..][n1..] == addr[n + n1..];
        r := WriteInode(i, newOff, addr[n..n + n1]);
        if r == Halt { return; }
        if r == MinusOne { break; }
        newOff := newOff + n1;
        n := n + n1;
      }
      r := if n == |addr| then Count(n) else MinusOne;
    }
  }

  /** What a read gives that has `bytes` already. */
  function After(bytes: Bytes, r: Read): Read { if r.Read? then r.(bytes := bytes + r.bytes) else r }

  lemma NothingBefore(r: Read)
    ensures After([], r) == r
  {
    if r.Read? { assert [] + r.bytes == r.bytes; }
  }

  lemma NothingLeft(d: Disk, i: nat, off: nat, bytes: Bytes, op: bool)
    requires Shaped(d) && i < |d.inodes|
    ensures After(bytes, ReadFrom(d, i, off, 0, op)) == Read(d, bytes)
  {
    assert bytes + [] == bytes;
  }

  lemma AfterPiece(a: Bytes, b: Bytes, r: Read)
    ensures After(a, After(b, r)) == After(a + b, r)
  {
    if r.Read? { assert a + (b + r.bytes) == a + b + r.bytes; }
  }

  /** What a call returns: a count, -1, or not at all. */
  datatype Code = Count(n: nat) | MinusOne | Halt

  function CodeOf(r: Result): Code {
    match r
    case Done(_, n) => Count(n)
    case Refused => MinusOne
    case Crashed => Halt
  }

  /** The result of a write of which `n` bytes were written before. */
  function Later(r: Filed, n: nat): Filed { if r.Filed? then r.(written := n + r.written) else r }

  /** `itrunc` after `k` turns of its first loop. */
  function Cleared(d: Disk, i: nat, k: nat): Disk
    requires Shaped(d) && i < |d.inodes| && k <= NDIRECT
  {
    d.(used := Unmarked(d, i, k),
       inodes := d.inodes[i := d.inodes[i].(addrs := seq(k, x => 0) + d.inodes[i].addrs[k..])])
  }

  lemma ClearedNone(d: Disk, i: nat)
    requires Shaped(d) && i < |d.inodes|
    ensures Cleared(d, i, 0) == d
  {
    assert seq(0, x => 0) + d.inodes[i].addrs[0..] == d.inodes[i].addrs;
  }

  lemma ClearedNext(d: Disk, i: nat, k: nat)
    requires Shaped(d) && i < |d.inodes| && k < NDIRECT
    ensures Cleared(d, i, k).inodes[i].addrs[k] == Slot(d, i, k)
    ensures var c := Cleared(d, i, k);
      Cleared(d, i, k + 1) == c.(used := Unmarked(d, i, k + 1), inodes := c.inodes[i := c.inodes[i].(addrs := c.inodes[i].addrs[k := 0])])
    ensures var c := Cleared(d, i, k);
      Slot(d, i, k) == 0 ==> Cleared(d, i, k + 1) == c.(used := Unmarked(d, i, k + 1))
  {
    hide Unmarked;
    var c := Cleared(d, i, k);
    assert c.inodes[i].addrs[k := 0] == Cleared(d, i, k + 1).inodes[i].addrs;
    assert Slot(d, i, k) == 0 ==> c.inodes[i].addrs[k := 0] == c.inodes[i].addrs;
  }

  lemma SlotInRange(d: Disk, i: nat, k: nat)
    requires Inv(d) && IsSlot(d, i, k) && Slot(d, i, k) != 0
    ensures d.meta <= Slot(d, i, k) < |d.used|
  {
  }

  lemma {:induction false} NoTable(d: Disk, i: nat, n: nat)
    requires Shaped(d) && i < |d.inodes| && d.inodes[i].addrs[NDIRECT] == 0 && NDIRECT <= n <= MAXFILE + 1
    ensures Unmarked(d, i, n) == Unmarked(d, i, NDIRECT)
  {
    if n == NDIRECT {
    } else {
      NoTable(d, i, n - 1);
    }
  }

  lemma BmapFacts(d: Disk, i: nat, bn: nat, op: bool)
    requires Inv(d) && i < |d.inodes| && bn < MAXFILE && Bmap(d, i, bn, op).Mapped?
    ensures var r := Bmap(d, i, bn, op); Inv(r.d) && Extends(d, r.d, i) && r.addr < |r.d.blocks| && r.addr != 0 && Slot(r.d, i, bn) == r.addr
  {
    BmapOk(d, i, bn, op);
    assert IsSlot(Bmap(d, i, bn, op).d, i, bn);
  }

  lemma TableFacts(d: Disk, i: nat, op: bool)
    requires Inv(d) && i < |d.inodes| && Fs.MapAddr(d, i, NDIRECT, op).Mapped?
    ensures var r := Fs.MapAddr(d, i, NDIRECT, op); Shaped(r.d) && r.addr < |r.d.blocks|
  {
    MapAddrExtends(d, i, NDIRECT, op);
    assert IsSlot(Fs.MapAddr(d, i, NDIRECT, op).d, i, MAXFILE);
  }

  ghost predicate AllUsed(used: seq<bool>, n: nat) { forall b :: 0 <= b < n && b < |used| ==> used[b] }

  lemma FirstIs(used: seq<bool>, b: nat)
    requires b <= |used| && AllUsed(used, b) && (b < |used| ==> !used[b])
    ensures IndexOf(used, false) == b
  {
    var i := IndexOf(used, false);
    assert forall x :: 0 <= x < i ==> used[..i][x] == used[x];
  }

  lemma EightMore(q: nat, bi: nat)
    ensures 8 * q / 8 == q && (8 * q + bi) / 8 == q + bi / 8 && (8 * q + bi) % 8 == bi % 8
  {
  }

  lemma BitPlace(base: nat, bi: nat)
    requires base % BPB == 0
    ensures base / 8 + bi / 8 == (base + bi) / 8 && bi % 8 == (base + bi) % 8
  {
    var q := base / BPB;
    assert base == 8 * (512 * q);
    EightMore(512 * q, bi);
  }
}
