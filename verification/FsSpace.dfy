/**
How many blocks it takes to fill a stretch of a file's slots.
*/
module FsSpace {
  import opened Base
  import opened Fs

  /** The slots from `lo` to `hi` without a block. */
  function EmptySlots(d: Disk, i: nat, lo: nat, hi: nat): nat
    requires Shaped(d) && i < |d.inodes| && hi <= MAXFILE
  {
    if lo >= hi then 0 else EmptySlots(d, i, lo, hi - 1) + if Slot(d, i, hi - 1) == 0 then 1 else 0
  }

  /** A stretch that needs the indirect block. */
  predicate Reaches(lo: nat, hi: nat) { lo < hi && NDIRECT < hi }

  /** The blocks it takes: one for each empty slot, and the indirect block if it is missing. */
  function Wanted(d: Disk, i: nat, lo: nat, hi: nat): nat
    requires Shaped(d) && i < |d.inodes| && hi <= MAXFILE
  {
    EmptySlots(d, i, lo, hi) + if Reaches(lo, hi) && Slot(d, i, MAXFILE) == 0 then 1 else 0
  }

  /** From `d` to `d1` the slots of inode `i` from `lo` to `hi` were filled, no other was, and that
      took the blocks it takes. */
  ghost predicate Filled(d: Disk, d1: Disk, i: nat, lo: nat, hi: nat) {
    && Shaped(d) && Shaped(d1) && i < |d.inodes| == |d1.inodes| && lo <= hi <= MAXFILE
    && FreeCount(d1.used) + Wanted(d, i, lo, hi) == FreeCount(d.used)
    && (forall l :: 0 <= l < MAXFILE ==> if lo <= l < hi then Slot(d1, i, l) != 0 else Slot(d1, i, l) == Slot(d, i, l))
    && if Reaches(lo, hi) then Slot(d1, i, MAXFILE) != 0 else Slot(d1, i, MAXFILE) == Slot(d, i, MAXFILE)
  }

  lemma FilledNone(d: Disk, i: nat, lo: nat)
    requires Shaped(d) && i < |d.inodes| && lo <= MAXFILE
    ensures Filled(d, d, i, lo, lo)
  {
  }

  lemma {:induction false} EmptySplit(d: Disk, i: nat, lo: nat, mid: nat, hi: nat)
    requires Shaped(d) && i < |d.inodes| && lo <= mid <= hi <= MAXFILE
    ensures EmptySlots(d, i, lo, hi) == EmptySlots(d, i, lo, mid) + EmptySlots(d, i, mid, hi)
  {
    if mid == hi {
    } else {
      EmptySplit(d, i, lo, mid, hi - 1);
    }
  }

  lemma {:induction false} EmptySame(d: Disk, d1: Disk, i: nat, lo: nat, hi: nat)
    requires Shaped(d) && Shaped(d1) && i < |d.inodes| == |d1.inodes| && hi <= MAXFILE
    requires forall l :: lo <= l < hi ==> Slot(d1, i, l) == Slot(d, i, l)
    ensures EmptySlots(d1, i, lo, hi) == EmptySlots(d, i, lo, hi)
  {
    if lo >= hi {
    } else {
      EmptySame(d, d1, i, lo, hi - 1);
    }
  }

  lemma {:induction false} EmptyNone(d: Disk, i: nat, lo: nat, hi: nat)
    requires Shaped(d) && i < |d.inodes| && hi <= MAXFILE && forall l :: lo <= l < hi ==> Slot(d, i, l) != 0
    ensures EmptySlots(d, i, lo, hi) == 0
  {
    if lo >= hi {
    } else {
      EmptyNone(d, i, lo, hi - 1);
    }
  }

  /** What a stretch takes, when part of it is filled already; the rest may begin in the last slot
      of that part. */
  lemma WantedThen(d: Disk, d1: Disk, i: nat, lo: nat, mid: nat, rest: nat, hi: nat)
    requires Filled(d, d1, i, lo, mid) && lo <= rest <= mid <= hi <= MAXFILE && mid <= rest + 1
    ensures Wanted(d, i, lo, hi) == Wanted(d, i, lo, mid) + Wanted(d1, i, rest, hi)
  {
    hide Slot;
    EmptySplit(d, i, lo, mid, hi);
    EmptySplit(d1, i, rest, mid, hi);
    EmptyNone(d1, i, rest, mid);
    EmptySame(d, d1, i, mid, hi);
  }

  lemma FilledThen(d: Disk, d1: Disk, d2: Disk, i: nat, lo: nat, mid: nat, rest: nat, hi: nat)
    requires Filled(d, d1, i, lo, mid) && Filled(d1, d2, i, rest, hi) && lo <= rest <= mid <= hi && mid <= rest + 1
    ensures Filled(d, d2, i, lo, hi)
  {
    hide Slot;
    WantedThen(d, d1, i, lo, mid, rest, hi);
  }

  lemma BmapFilled(d: Disk, i: nat, bn: nat, op: bool)
    requires Inv(d) && i < |d.inodes| && bn < MAXFILE
    ensures match Bmap(d, i, bn, op)
      case Panic => Short(d.used, Wanted(d, i, bn, bn + 1), op)
      case Mapped(d1, _) => Filled(d, d1, i, bn, bn + 1) && !Short(d.used, Wanted(d, i, bn, bn + 1), op)
  {
    hide Bmap, ByteAt, NoLeak, SlotsUsed, SlotsDistinct, FreeCount;
    BmapPanicsExactly(d, i, bn, op);
    assert EmptySlots(d, i, bn, bn + 1) == EmptySlots(d, i, bn, bn) + if Slot(d, i, bn) == 0 then 1 else 0;
    assert Wanted(d, i, bn, bn + 1) == Needed(d, i, bn);
    if Bmap(d, i, bn, op).Mapped? {
      BmapOk(d, i, bn, op);
      if bn >= NDIRECT { TableThere(d, i, bn, op); } else { BmapElsewhere(d, i, bn, MAXFILE, op); }
      forall l | 0 <= l < MAXFILE && l != bn ensures Slot(Bmap(d, i, bn, op).d, i, l) == Slot(d, i, l) {
        BmapElsewhere(d, i, bn, l, op);
      }
    }
  }

  /** A slot of the indirect block has an address only if there is an indirect block. */
  lemma TableThere(d: Disk, i: nat, bn: nat, op: bool)
    requires Inv(d) && i < |d.inodes| && NDIRECT <= bn < MAXFILE && Bmap(d, i, bn, op).Mapped?
    ensures var r := Bmap(d, i, bn, op); Shaped(r.d) && i < |r.d.inodes| && Slot(r.d, i, MAXFILE) != 0
  {
    hide WordAt;
    BmapOk(d, i, bn, op);
  }
}
