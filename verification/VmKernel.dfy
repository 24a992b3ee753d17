/**
`kalloc.c` and `vm.c` as they work on the frames: the free list runs through the free frames, and
page tables are changed in place.
*/
module VmKernel {
  import opened Base
  import opened Vm

  /** The list from `head` through `next` is `free`. */
  ghost predicate Threaded(head: Option<nat>, next: seq<Option<nat>>, free: seq<nat>) { Whole(ThreadedFacts(head, next, free)) }

  ghost predicate ThreadedFacts(head: Option<nat>, next: seq<Option<nat>>, free: seq<nat>) {
    && Distinct(free) && head == Nth(free, 0)
    && forall i :: 0 <= i < |free| ==> Link(next, free, i)
  }

  ghost predicate Link(next: seq<Option<nat>>, free: seq<nat>, i: nat) {
    i < |free| && free[i] < |next| && next[free[i]] == Nth(free, i + 1)
  }

  function Nth(s: seq<nat>, i: nat): Option<nat> { if i < |s| then Some(s[i]) else None }

  class Memory {
    const pages: array<Page>
    /** The links, each in its free frame. */
    const next: array<Option<nat>>
    var freelist: Option<nat>
    ghost var free: seq<nat>

    ghost function View(): Kernel
      reads this, pages
    {
      Kernel(pages[..], free)
    }

    ghost predicate Valid()
      reads this, next
    {
      (pages as object) != next && next.Length == pages.Length && Threaded(freelist, next[..], free)
    }

    /** Memory before `kinit1`: nothing is free. */
    constructor (frames: nat)
      ensures Valid() && pages.Length == frames && free == [] && fresh(pages) && fresh(next)
    {
      pages := new Page[frames](_ => Junk);
      next := new Option<nat>[frames](_ => None);
      freelist, free := None, [];
    }

    // ---------- kalloc.c ----------

    method Kfree(f: nat)
      requires Valid() && f < pages.Length && f !in free
      modifies pages, next, this`freelist, this`free
      ensures Valid() && View() == Put(old(View()), f)
    {
      FreedThreaded(freelist, next[..], free, f);
      pages[f] := Junk;
      next[f] := freelist;
      freelist := Some(f);
      free := [f] + free;
    }

    method Kalloc() returns (r: Option<nat>)
      requires Valid()
      modifies this`freelist, this`free
      ensures Valid() && r == Nth(old(free), 0) && pages[..] == old(pages[..])
      ensures if r.Some? then r.value < pages.Length && free == old(free)[1..] else free == old(free)
    {
      r := freelist;
      if r.Some? {
        TakenThreaded(freelist, next[..], free);
        freelist := next[r.value];
        free := free[1..];
      }
    }

    /** A frame with the given contents. */
    method Fill(f: nat, page: Page)
      requires Valid() && f < pages.Length
      modifies pages
      ensures Valid() && View() == old(View()).(pages := old(pages[..])[f := page])
    {
      pages[f] := page;
    }

    // ---------- mappages ----------

    /** `walkpgdir` with a table to be made if need be; `k0` and `hand` say whose frames these are. */
    method Walk(d: nat, v: nat, ghost k0: Kernel, ghost hand: set<nat>) returns (t: Option<nat>)
      requires Valid() && Conserved(k0, View(), d, hand) && v < VPAGES
      modifies pages, this`freelist, this`free
      ensures Valid() && Conserved(k0, View(), d, hand) && TableOf(View(), d, v) == t
      ensures old(TableOf(View(), d, v)).Some? ==> View() == old(View())
      ensures old(TableOf(View(), d, v)).None? ==>
        if old(free) == [] then t == None && View() == old(View())
        else t.Some? && old(free)[0] < |old(pages[..])| && View() == NewTable(old(View()), d, v)
    {
      hide Lookup, Slot, Owns, SlotsDistinct;
      t := pages[d].pdes[v / ENTRIES];
      if t.None? {
        if free != [] { NewTableOk(k0, View(), d, v, hand); }
        t := Kalloc();
        if t.None? { return; }
        pages[t.value] := Table(NoPtes());
        pages[d] := Dir(pages[d].pdes[v / ENTRIES := t]);
      }
    }

    /** `mappages` of one page. */
    method MapOne(d: nat, v: nat, pte: Pte, ghost k0: Kernel, ghost hand: set<nat>) returns (c: Code)
      requires Valid() && Conserved(k0, View(), d, hand) && v < VPAGES
      modifies pages, this`freelist, this`free
      ensures Valid() && MapPage(old(View()), d, v, pte) == OutcomeOf(c, View())
    {
      hide Slot, Owns, SlotsDistinct;
      if free != [] && TableOf(View(), d, v).None? { NewTableOk(k0, View(), d, v, hand); }
      var t := Walk(d, v, k0, hand);
      if t.None? { return NoMemory; }
      if pages[t.value].ptes[v % ENTRIES].Present? { return Panics; }
      pages[t.value] := Table(pages[t.value].ptes[v % ENTRIES := pte]);
      return Fine;
    }

    // ---------- deallocuvm and freevm ----------

    /** `deallocuvm`, which skips the rest of a table that is not there. */
    method Deallocuvm(d: nat, first: nat, end: nat, ghost k0: Kernel, ghost hand: set<nat>)
      requires Valid() && Conserved(k0, View(), d, hand) && end <= USER
      modifies pages, next, this`freelist, this`free
      ensures Valid() && Conserved(k0, View(), d, hand) && View() == Dealloc(old(View()), d, first, end)
    {
      hide Slot, Owns, SlotsDistinct, Dropped;
      var a := first;
      while a < end
        invariant Valid() && Conserved(k0, View(), d, hand)
        invariant Dealloc(old(View()), d, first, end) == Dealloc(View(), d, a, end)
        decreases end - a
      {
        var t := pages[d].pdes[a / ENTRIES];
        if t.None? {
          var a1 := (a / ENTRIES + 1) * ENTRIES;
          DeallocSkips(View(), d, a, end, a1);
          a := a1 - 1;
        } else if pages[t.value].ptes[a % ENTRIES].Present? {
          DroppedOk(k0, View(), d, a, hand);
          DropFacts(k0, View(), d, a, hand);
          Drop(d, a, t.value);
        }
        a := a + 1;
      }
    }

    method Drop(d: nat, a: nat, t: nat)
      requires Valid() && Shaped(View(), d) && a < VPAGES && TableOf(View(), d, a) == Some(t) && Lookup(View(), d, a).Present?
      requires var f := Lookup(View(), d, a).frame; f !in free && f < pages.Length && f != t
      modifies pages, next, this`freelist, this`free
      ensures Valid() && View() == Dropped(old(View()), d, a)
    {
      var pa := pages[t].ptes[a % ENTRIES].frame;
      Kfree(pa);
      pages[t] := Table(pages[t].ptes[a % ENTRIES := NotPresent]);
      assert View() == Dropped(old(View()), d, a);
    }

    method Freevm(d: nat, ghost k0: Kernel)
      requires Valid() && Conserved(k0, View(), d, {})
      modifies pages, next, this`freelist, this`free
      ensures Valid() && View() == FreeVm(old(View()), d) && Restored(k0, View())
    {
      hide Slot, Owns, SlotsDistinct, Dealloc, Lookup;
      FreeVmOk(k0, View(), d);
      DeallocOk(k0, View(), d, 0, USER, {});
      Deallocuvm(d, 0, USER, k0, {});
      OnlyTables(k0, View(), d);
      FreeDirectory(d, k0);
      Kfree(d);
    }

    /** The loop of `freevm` over the directory. */
    method FreeDirectory(d: nat, ghost k0: Kernel)
      requires Valid() && Shaped(View(), d) && TablesLeft(k0, View(), d, pages[d].pdes, 0)
      modifies pages, next, this`freelist, this`free
      ensures Valid() && View() == FreeTables(old(View()), old(pages[d]).pdes, 0) && d !in free
    {
      hide TablesLeft, LeftTable;
      ghost var pdes := pages[d].pdes;
      var i := 0;
      while i < ENTRIES
        invariant i <= ENTRIES && Valid() && pages[d] == Dir(pdes) && TablesLeft(k0, View(), d, pdes, i)
        invariant FreeTables(old(View()), pdes, 0) == FreeTables(View(), pdes, i)
      {
        TablesLeftNext(k0, View(), d, pdes, i);
        var e := pages[d].pdes[i];
        if e.Some? { Kfree(e.value); }
        i := i + 1;
      }
      DirNotFree(k0, View(), d, pdes, ENTRIES);
    }

    // ---------- setupkvm, copyuvm and allocuvm ----------

    /** `mappages` of a run of kernel pages. */
    method Mappages(d: nat, regions: seq<Region>, i: nat, ghost k0: Kernel) returns (c: Code)
      requires Valid() && IsKmap(regions) && i < |regions| && Conserved(k0, View(), d, {}) && MapsSoFar(View(), d, regions, i, 0)
      modifies pages, this`freelist, this`free
      ensures Valid() && MapPages(old(View()), d, regions[i], 0) == OutcomeOf(c, View())
    {
      hide Slot, Owns, SlotsDistinct, MapPage, KernelPte, Lookup;
      var r, n := regions[i], 0;
      while n < r.n
        invariant n <= r.n && Valid() && Conserved(k0, View(), d, {}) && MapsSoFar(View(), d, regions, i, n)
        invariant MapPages(old(View()), d, r, 0) == MapPages(View(), d, r, n)
      {
        KernelPteOutside(regions, i, r.v + n);
        MapKernelOk(k0, View(), d, r.v + n, Present(r.frame + n, r.flags));
        c := MapOne(d, r.v + n, Present(r.frame + n, r.flags), k0, {});
        if c == NoMemory { return; }
        n := n + 1;
      }
      return Fine;
    }

    method MapKernel(d: nat, regions: seq<Region>, ghost k0: Kernel) returns (c: Code)
      requires Valid() && IsKmap(regions) && Conserved(k0, View(), d, {}) && MapsSoFar(View(), d, regions, 0, 0)
      modifies pages, this`freelist, this`free
      ensures Valid() && MapRegions(old(View()), d, regions, 0) == OutcomeOf(c, View())
    {
      hide Slot, Owns, SlotsDistinct, MapPages, Lookup;
      var i := 0;
      while i < |regions|
        invariant i <= |regions| && Valid() && Conserved(k0, View(), d, {}) && MapsSoFar(View(), d, regions, i, 0)
        invariant MapRegions(old(View()), d, regions, 0) == MapRegions(View(), d, regions, i)
      {
        MapPagesOk(k0, View(), d, regions, i, 0);
        c := Mappages(d, regions, i, k0);
        if c == NoMemory { return; }
        assert regions[..i + 1][..i] == regions[..i];
        i := i + 1;
      }
      return Fine;
    }

    /** `setupkvm`; no result stands for failure. */
    method Setupkvm(regions: seq<Region>) returns (r: Option<nat>)
      requires Valid() && IsKmap(regions)
      modifies pages, next, this`freelist, this`free
      ensures Valid() && SetupKvm(old(View()), regions) == SpaceOf(r, View())
    {
      hide Slot, Owns, SlotsDistinct, MapRegions, Lookup, FreeVm;
      ghost var k := View();
      FreeIsOk(freelist, next[..], k);
      if free != [] { NewDirOk(k, regions); }
      r := Kalloc();
      if r.None? { return; }
      Fill(r.value, Dir(NoPdes()));
      assert View() == Taken(k, Dir(NoPdes()));
      MapRegionsOk(k, View(), r.value, regions, 0);
      var c := MapKernel(r.value, regions, k);
      if c == NoMemory {
        Freevm(r.value, k);
        r := None;
      }
    }

    /** The loop of `copyuvm`. */
    method CopyPages(src: nat, d: nat, n: nat, regions: seq<Region>, ghost k0: Kernel) returns (c: Code)
      requires Valid() && IsKmap(regions) && IsParent(k0, src, n)
      requires Conserved(k0, View(), d, {}) && Copied(k0, View(), src, d, regions, 0) && Shaped(View(), src)
      modifies pages, next, this`freelist, this`free
      ensures Valid() && CopyFrom(old(View()), src, d, 0, n) == OutcomeOf(c, View())
    {
      hide Slot, Owns, SlotsDistinct, MapPage, KernelPte, Copied, IsKmap, Lookup, CopyFrom;
      var v := 0;
      while v < n
        invariant v <= n && Valid() && Shaped(View(), src)
        invariant Conserved(k0, View(), d, {}) && Copied(k0, View(), src, d, regions, v)
        invariant CopyFrom(old(View()), src, d, 0, n) == CopyFrom(View(), src, d, v, n)
      {
        c := CopyPage(src, d, v, n, regions, k0);
        if c == NoMemory { return; }
        v := v + 1;
      }
      CopyFromEnd(View(), src, d, n);
      return Fine;
    }

    /** One turn of it; it fails only for want of a frame, which it then has given back. */
    method CopyPage(src: nat, d: nat, v: nat, n: nat, regions: seq<Region>, ghost k0: Kernel) returns (c: Code)
      requires Valid() && IsKmap(regions) && IsParent(k0, src, n) && v < n
      requires Conserved(k0, View(), d, {}) && Copied(k0, View(), src, d, regions, v) && Shaped(View(), src)
      modifies pages, next, this`freelist, this`free
      ensures Valid() && Shaped(View(), src) && Conserved(k0, View(), d, {}) && c != Panics
      ensures c == Fine ==> Copied(k0, View(), src, d, regions, v + 1)
      ensures CopyFrom(old(View()), src, d, v, n) ==
        if c == Fine then CopyFrom(View(), src, d, v + 1, n) else OutOfMemory(View())
    {
      hide Slot, Owns, SlotsDistinct, MapPage, KernelPte, Copied, IsKmap, Lookup;
      ghost var k := View();
      ParentStays(k0, k, src, d, n, {});
      var pte := LookupPte(src, v);
      if free != [] { CopyOne(k0, k, src, d, regions, v, n); }
      var mem := Kalloc();
      if mem.None? { return NoMemory; }
      Fill(mem.value, pages[pte.frame]);
      assert View() == Taken(k, k.pages[pte.frame]);
      c := MapOne(d, v, Present(mem.value, pte.flags), k0, {mem.value});
      if c == NoMemory {
        HandToFree(k0, View(), d, mem.value);
        InHand(k0, View(), d, mem.value);
        Kfree(mem.value);
      }
      ParentStays(k0, View(), src, d, n, {});
    }

    /** `walkpgdir` without making a table, and the entry it leads to. */
    method LookupPte(d: nat, v: nat) returns (pte: Pte)
      requires Shaped(View(), d) && v < VPAGES
      ensures pte == Lookup(View(), d, v)
    {
      var t := pages[d].pdes[v / ENTRIES];
      if t.None? { return NotPresent; }
      return pages[t.value].ptes[v % ENTRIES];
    }

    /** `copyuvm` of a parent of `n` pages; no result stands for failure. */
    method Copyuvm(src: nat, n: nat, regions: seq<Region>) returns (r: Option<nat>)
      requires Valid() && IsKmap(regions) && IsParent(View(), src, n)
      modifies pages, next, this`freelist, this`free
      ensures Valid() && CopyUvm(old(View()), src, n, regions) == SpaceOf(r, View())
    {
      hide Slot, Owns, SlotsDistinct, KernelPte, SetupKvm, CopyFrom, FreeVm, IsKmap, Lookup;
      ghost var k := View();
      FreeIsOk(freelist, next[..], k);
      SetupKvmOk(k, regions);
      r := Setupkvm(regions);
      if r.None? { return; }
      ParentStays(k, View(), src, r.value, n, {});
      assert Copied(k, View(), src, r.value, regions, 0);
      CopyFromOk(k, View(), src, r.value, regions, 0, n);
      var c := CopyPages(src, r.value, n, regions, k);
      if c == NoMemory {
        Freevm(r.value, k);
        r := None;
      }
    }

    /** `allocuvm` from page `first` to `end`. */
    method Allocuvm(d: nat, first: nat, end: nat, flags: nat, ghost k0: Kernel) returns (c: Code)
      requires Valid() && Conserved(k0, View(), d, {}) && first <= end <= USER
      requires forall u :: first <= u < end ==> Lookup(View(), d, u) == NotPresent
      modifies pages, next, this`freelist, this`free
      ensures Valid() && AllocFrom(old(View()), d, first, first, end, flags) == OutcomeOf(c, View())
    {
      hide Slot, Owns, SlotsDistinct, MapPage, Dealloc, ZeroPage, Lookup;
      ghost var k1 := View();
      var v := first;
      while v < end
        invariant first <= v <= end && Valid() && Conserved(k0, View(), d, {}) && Grown(k1, View(), d, first, v, flags)
        invariant AllocFrom(k1, d, first, first, end, flags) == AllocFrom(View(), d, first, v, end, flags)
      {
        ghost var k := View();
        if free != [] { TakeToHand(k0, k, d, ZeroPage()); }
        var mem := Kalloc();
        if mem.None? {
          Deallocuvm(d, first, end, k0, {});
          return NoMemory;
        }
        Fill(mem.value, ZeroPage());
        assert View() == Taken(k, ZeroPage());
        assert Lookup(k, d, v) == Lookup(k1, d, v);
        MapUserOk(k0, View(), d, v, mem.value, flags);
        c := MapOne(d, v, Present(mem.value, flags), k0, {mem.value});
        if c == NoMemory {
          Deallocuvm(d, first, end, k0, {mem.value});
          InHand(k0, View(), d, mem.value);
          Kfree(mem.value);
          return;
        }
        GrownKept(k0, k1, k, d, first, v, flags, View());
        v := v + 1;
      }
      return Fine;
    }
  }

  lemma CopyFromEnd(k: Kernel, src: nat, d: nat, n: nat)
    requires Shaped(k, src) && Shaped(k, d) && n <= USER
    ensures CopyFrom(k, src, d, n, n) == Ok(k)
  {
  }

  lemma DirNotFree(k0: Kernel, k: Kernel, d: nat, pdes: seq<Option<nat>>, i: nat)
    requires TablesLeft(k0, k, d, pdes, i)
    ensures d !in k.free
  {
  }

  lemma InHand(k0: Kernel, k: Kernel, d: nat, f: nat)
    requires Conserved(k0, k, d, {f})
    ensures f < |k.pages| && f !in k.free
  {
    assert f in k0.free;
  }

  function SpaceOf(r: Option<nat>, k: Kernel): Space { if r.Some? then Space(k, r.value) else NoSpace(k) }

  lemma FreeIsOk(head: Option<nat>, next: seq<Option<nat>>, k: Kernel)
    requires Threaded(head, next, k.free) && |next| == |k.pages|
    ensures FreeOk(k)
  {
    forall f | f in k.free ensures f < |k.pages| {
      var i :| 0 <= i < |k.free| && k.free[i] == f;
      assert Link(next, k.free, i);
    }
  }

  lemma DropFacts(k0: Kernel, k: Kernel, d: nat, a: nat, hand: set<nat>)
    requires Conserved(k0, k, d, hand) && a < USER && Lookup(k, d, a).Present?
    ensures TableOf(k, d, a).Some?
    ensures var f := Lookup(k, d, a).frame; f !in k.free && f < |k.pages| && f != TableOf(k, d, a).value
  {
    UserFrameOwned(k, d, a);
    assert Slot(k, d, PageSlot(a)) == Some(Lookup(k, d, a).frame);
    assert Slot(k, d, TableSlot(a)) == TableOf(k, d, a);
    assert Lookup(k, d, a).frame in k0.free;
  }

  /** Where there is no table there is nothing to free. */
  lemma {:induction false} DeallocSkips(k: Kernel, d: nat, a: nat, end: nat, a1: nat)
    requires Shaped(k, d) && end <= USER && a < end && TableOf(k, d, a).None? && a <= a1 <= (a / ENTRIES + 1) * ENTRIES
    ensures Dealloc(k, d, a, end) == Dealloc(k, d, a1, end)
    decreases a1 - a
  {
    if a < a1 && a + 1 < end {
      if a + 1 < (a / ENTRIES + 1) * ENTRIES {
        assert (a + 1) / ENTRIES == a / ENTRIES;
        DeallocSkips(k, d, a + 1, end, a1);
      }
    }
  }

  datatype Code = Fine | NoMemory | Panics

  function OutcomeOf(c: Code, k: Kernel): Outcome {
    match c
    case Fine => Ok(k)
    case NoMemory => OutOfMemory(k)
    case Panics => Panic
  }

  lemma FreedThreaded(head: Option<nat>, next: seq<Option<nat>>, free: seq<nat>, f: nat)
    requires Threaded(head, next, free) && f < |next| && f !in free
    ensures Threaded(Some(f), next[f := head], [f] + free)
  {
    var next1, free1 := next[f := head], [f] + free;
    forall i | 0 <= i < |free1| ensures Link(next1, free1, i) {
      if i > 0 { assert Link(next, free, i - 1); }
    }
  }

  lemma TakenThreaded(head: Option<nat>, next: seq<Option<nat>>, free: seq<nat>)
    requires Threaded(head, next, free) && free != []
    ensures free[0] < |next| && Threaded(next[free[0]], next, free[1..])
  {
    var free1 := free[1..];
    assert Link(next, free, 0);
    forall i | 0 <= i < |free1| ensures Link(next, free1, i) {
      assert Link(next, free, i + 1);
    }
  }
}
