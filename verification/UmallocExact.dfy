/**
Which block `malloc` takes, what it leaves of it, and where the next search starts.
*/
module UmallocExact {
  import opened Base
  import opened Umalloc

  /** The free block `d` links on from `freep`. */
  function Link(h: Heap, d: nat): nat
    requires h.at < |h.free| && d <= |h.free|
  {
    if h.at + d < |h.free| then h.at + d else h.at + d - |h.free|
  }

  /** `malloc` takes the first block from the one after `freep` on that is large enough: all of it if it
      fits exactly, else its end. The next search starts from the block before it. */
  lemma NextFit(h: Heap, nbytes: nat, outOfPages: bool, d: nat)
    requires Valid(h) && nbytes <= LARGEST && 1 <= d <= |h.free|
    requires UnitsFor(nbytes) <= h.free[Link(h, d)].size
    requires forall e :: 1 <= e < d ==> h.free[Link(h, e)].size < UnitsFor(nbytes)
    ensures var r, n, j := Malloc(h, nbytes, outOfPages), UnitsFor(nbytes), Link(h, d);
      var c := h.free[j];
      && 0 < j && r.block == Some(c.addr + c.size - n) && r.h.at == j - 1
      && r.h.free == (if c.size == n then h.free[..j] + h.free[j + 1..] else h.free[j := Chunk(c.addr, c.size - n)])
      && r.h.live == h.live[c.addr + c.size - n := n] && r.h.granted == h.granted && r.h.top == h.top
  {
    hide Ordered, LiveApart, FreeApart, Accounted, UnitsFor;
    UnitsOk(nbytes);
    var n := UnitsFor(nbytes);
    assert forall e :: 0 <= e <= |h.free| ==> Around(h.free, h.at, e) == Link(h, e);
  }

  /** With no block large enough, the block is the end of the memory that `sbrk` gave. */
  lemma GrowthFit(h: Heap, nbytes: nat, outOfPages: bool)
    requires Valid(h) && nbytes <= LARGEST && !SomeFits(h.free, UnitsFor(nbytes))
    requires !Refuses(h.top, Max(UnitsFor(nbytes), MORE), outOfPages)
    ensures var r, n := Malloc(h, nbytes, outOfPages), UnitsFor(nbytes);
      r.block == Some(h.top + Max(n, MORE) - n) && r.h.top == h.top + Max(n, MORE)
  {
    hide Ordered, LiveApart, FreeApart, Accounted, UnitsFor, Insert, Sbrk, Request, Span, Find, Based;
    var n := UnitsFor(nbytes);
    UnitsOk(nbytes);
    var nu := Max(n, MORE);
    NotFound(h, n);
    MorecoreIs(h, n, outOfPages);
    SbrkGrows(h.top, nu, outOfPages);
    var h1 := Grown(h, nu, h.top + nu);
    MorecoreServes(h, nu, h.top + nu, n);
    var i := Around(h1.free, h1.at, Find(h1.free, h1.at, n, 1));
    GrownFits(h, nu, n, i);
  }

  lemma NotFound(h: Heap, n: nat)
    requires h.at < |h.free| && !SomeFits(h.free, n)
    ensures Find(h.free, h.at, n, 1) > |h.free|
  {
    assert forall i :: 0 <= i < |h.free| ==> h.free[i].size < n;
  }

  /** The only block of the grown list that is large enough is the last, and it ends the memory. */
  lemma GrownFits(h: Heap, nu: nat, n: nat, i: nat)
    requires Valid(h) && 0 < n <= nu && !SomeFits(h.free, n)
    requires i < |Grown(h, nu, h.top + nu).free| && n <= Grown(h, nu, h.top + nu).free[i].size
    ensures var c := Grown(h, nu, h.top + nu).free[i]; 0 < i && c.addr + c.size == h.top + nu
  {
    hide LiveApart, FreeApart, Accounted, Span;
    TopFits(h, Chunk(h.top, nu));
    GrownEnds(h, nu, h.top + nu);
    var free := Grown(h, nu, h.top + nu).free;
    assert forall j :: 0 <= j < |h.free| && j < |free| - 1 ==> free[j] == h.free[j];
    assert forall j :: 0 <= j < |h.free| ==> h.free[j].size < n;
  }

  /** After `free` the next search starts from the free block that lies next below the one freed, or
      contains it. */
  lemma FreeNext(h: Heap, a: nat)
    requires Valid(h) && a in h.live
    ensures 0 < Below(h.free, a)
    ensures var h1 := Free(h, a);
      && h1.at < |h1.free| && h1.free[h1.at].addr < a && (h1.at + 1 < |h1.free| ==> a <= h1.free[h1.at + 1].addr)
      && h1.live == h.live - {a} && h1.granted == h.granted && h1.top == h.top
  {
    hide LiveApart, FreeApart, Accounted;
    LiveAbove(h, a);
  }
}
