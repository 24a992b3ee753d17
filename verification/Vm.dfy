/**
Page tables and page frames of `vm.c` and `kalloc.c` on values. Addresses are counted in pages.
*/
module Vm {
  import opened Base

  /** Entries of a directory and of a table. */
  const ENTRIES := 1024
  /** Pages below `KERNBASE`, which make up the user part of an address space. */
  const USER := 512 * ENTRIES
  const VPAGES := ENTRIES * ENTRIES

  datatype Pte = NotPresent | Present(frame: nat, flags: nat)

  /** What a frame is used for. */
  datatype Page = Junk | Data(bytes: seq<nat>) | Table(ptes: seq<Pte>) | Dir(pdes: seq<Option<nat>>)

  /** The frames, and the list of the free ones. */
  datatype Kernel = Kernel(pages: seq<Page>, free: seq<nat>)

  function NoPtes(): seq<Pte> { seq(ENTRIES, i => NotPresent) }

  function NoPdes(): seq<Option<nat>> { seq(ENTRIES, i => None) }

  /** `d` is a directory whose entries lead to tables. */
  predicate Shaped(k: Kernel, d: nat) {
    && d < |k.pages| && k.pages[d].Dir? && |k.pages[d].pdes| == ENTRIES
    && forall i :: 0 <= i < ENTRIES && k.pages[d].pdes[i].Some? ==> IsTable(k, k.pages[d].pdes[i].value)
  }

  predicate IsTable(k: Kernel, t: nat) { t < |k.pages| && k.pages[t].Table? && |k.pages[t].ptes| == ENTRIES }

  function TableOf(k: Kernel, d: nat, v: nat): Option<nat>
    requires Shaped(k, d) && v < VPAGES
  {
    k.pages[d].pdes[v / ENTRIES]
  }

  /** How page `v` of the address space is mapped. */
  function Lookup(k: Kernel, d: nat, v: nat): Pte
    requires Shaped(k, d) && v < VPAGES
  {
    match TableOf(k, d, v)
    case None => NotPresent
    case Some(t) => k.pages[t].ptes[v % ENTRIES]
  }

  /** The frames an address space owns, by slot: its directory, its tables, its user pages. */
  const SLOTS := 1 + ENTRIES + USER

  function Slot(k: Kernel, d: nat, s: nat): Option<nat>
    requires Shaped(k, d) && s < SLOTS
  {
    if s == 0 then Some(d)
    else if s <= ENTRIES then k.pages[d].pdes[s - 1]
    else
      match Lookup(k, d, s - 1 - ENTRIES)
      case NotPresent => None
      case Present(f, _) => Some(f)
  }

  function TableSlot(v: nat): nat { 1 + v / ENTRIES }

  function PageSlot(v: nat): nat { 1 + ENTRIES + v }

  ghost predicate Owns(k: Kernel, d: nat, f: nat)
    requires Shaped(k, d)
  {
    exists s :: 0 <= s < SLOTS && Slot(k, d, s) == Some(f)
  }

  ghost predicate SlotsDistinct(k: Kernel, d: nat)
    requires Shaped(k, d)
  {
    forall s, r :: 0 <= s < SLOTS && 0 <= r < SLOTS && s != r && Slot(k, d, s).Some? ==> Slot(k, d, s) != Slot(k, d, r)
  }

  /** The frames free in `k0` are, in `k`, free or in hand or owned by `d`, each in one way; all other
      frames are as they were. */
  ghost predicate Conserved(k0: Kernel, k: Kernel, d: nat, hand: set<nat>) { Whole(ConservedFacts(k0, k, d, hand)) }

  ghost predicate ConservedFacts(k0: Kernel, k: Kernel, d: nat, hand: set<nat>) {
    && Shaped(k, d) && |k.pages| == |k0.pages| && Distinct(k.free) && SlotsDistinct(k, d)
    && (forall f :: f in k0.free ==> f < |k.pages|)
    && (forall f :: f in k.free ==> f !in hand)
    && (forall s :: 0 <= s < SLOTS && Slot(k, d, s).Some? ==> Slot(k, d, s).value !in k.free && Slot(k, d, s).value !in hand)
    && (forall f: nat :: f in k0.free <==> f in k.free || f in hand || Owns(k, d, f))
    && (forall f :: 0 <= f < |k.pages| && f !in k0.free ==> k.pages[f] == k0.pages[f])
  }

  // ---------- frames change hands ----------

  /** `kalloc`: the head of the free list. */
  function Taken(k: Kernel, page: Page): Kernel
    requires k.free != [] && k.free[0] < |k.pages|
  {
    Kernel(k.pages[k.free[0] := page], k.free[1..])
  }

  /** `kfree` */
  function Put(k: Kernel, f: nat): Kernel
    requires f < |k.pages|
  {
    Kernel(k.pages[f := Junk], [f] + k.free)
  }

  /** A frame freed is overwritten, and is the next to be handed out; the free frames are then those
      before. */
  lemma FreedIsNext(k: Kernel, f: nat, page: Page)
    requires f < |k.pages|
    ensures var k1 := Put(k, f);
      && k1.pages[f] == Junk && k1.free != [] && k1.free[0] == f && |k1.pages| == |k.pages|
      && (forall x :: 0 <= x < |k.pages| && x != f ==> k1.pages[x] == k.pages[x])
      && Taken(k1, page) == Kernel(k.pages[f := page], k.free)
  {
    assert k.pages[f := Junk][f := page] == k.pages[f := page];
    assert ([f] + k.free)[1..] == k.free;
  }

  /** What an address space looks like does not depend on frames it does not own. */
  lemma SlotsElsewhere(k: Kernel, k1: Kernel, d: nat)
    requires Shaped(k, d) && |k1.pages| == |k.pages|
    requires forall f :: 0 <= f < |k.pages| && Owns(k, d, f) ==> k1.pages[f] == k.pages[f]
    ensures Shaped(k1, d) && forall v :: 0 <= v < VPAGES ==> Lookup(k1, d, v) == Lookup(k, d, v)
    ensures forall s :: 0 <= s < SLOTS ==> Slot(k1, d, s) == Slot(k, d, s)
  {
    assert Slot(k, d, 0) == Some(d);
    forall i | 0 <= i < ENTRIES && k.pages[d].pdes[i].Some? ensures k1.pages[k.pages[d].pdes[i].value] == k.pages[k.pages[d].pdes[i].value] {
      assert Slot(k, d, 1 + i) == k.pages[d].pdes[i];
    }
  }

  lemma SameOwns(k: Kernel, k1: Kernel, d: nat, f: nat)
    requires Shaped(k, d) && Shaped(k1, d) && forall s :: 0 <= s < SLOTS ==> Slot(k1, d, s) == Slot(k, d, s)
    ensures Owns(k1, d, f) <==> Owns(k, d, f)
  {
    hide Slot;
    if s :| 0 <= s < SLOTS && Slot(k, d, s) == Some(f) { assert Slot(k1, d, s) == Some(f); }
    if s :| 0 <= s < SLOTS && Slot(k1, d, s) == Some(f) { assert Slot(k, d, s) == Some(f); }
  }

  /** A frame is taken from the free list into the hand, and filled. */
  lemma TakeToHand(k0: Kernel, k: Kernel, d: nat, page: Page)
    requires Conserved(k0, k, d, {}) && k.free != []
    ensures k.free[0] < |k.pages| && Conserved(k0, Taken(k, page), d, {k.free[0]})
    ensures forall v :: 0 <= v < VPAGES ==> Lookup(Taken(k, page), d, v) == Lookup(k, d, v)
  {
    hide Slot, Lookup;
    var f := k.free[0];
    assert f in k.free && f in k0.free;
    var k1 := Taken(k, page);
    assert k.free == [f] + k1.free;
    forall x | 0 <= x < |k.pages| && Owns(k, d, x) ensures k1.pages[x] == k.pages[x] { }
    SlotsElsewhere(k, k1, d);
    forall x: nat ensures Owns(k1, d, x) <==> Owns(k, d, x) { SameOwns(k, k1, d, x); }
  }

  /** The frame in hand goes back to the free list. */
  lemma HandToFree(k0: Kernel, k: Kernel, d: nat, f: nat)
    requires Conserved(k0, k, d, {f})
    ensures f < |k.pages| && Conserved(k0, Put(k, f), d, {})
    ensures forall v :: 0 <= v < VPAGES ==> Lookup(Put(k, f), d, v) == Lookup(k, d, v)
  {
    hide Slot, Lookup;
    assert f in k0.free;
    var k1 := Put(k, f);
    forall x | 0 <= x < |k.pages| && Owns(k, d, x) ensures k1.pages[x] == k.pages[x] { }
    SlotsElsewhere(k, k1, d);
    forall x: nat ensures Owns(k1, d, x) <==> Owns(k, d, x) { SameOwns(k, k1, d, x); }
    assert Distinct(k1.free);
  }

  /** From `k` to `k1`, slot `s` changes to `to`, and no other. */
  ghost predicate OneSlot(k: Kernel, k1: Kernel, d: nat, s: nat, to: Option<nat>) {
    && Shaped(k, d) && Shaped(k1, d) && |k1.pages| == |k.pages| && s < SLOTS
    && forall r :: 0 <= r < SLOTS ==> Slot(k1, d, r) == if r == s then to else Slot(k, d, r)
  }

  lemma OwnsGained(k: Kernel, k1: Kernel, d: nat, s: nat, f: nat, x: nat)
    requires OneSlot(k, k1, d, s, Some(f)) && Slot(k, d, s) == None
    ensures Owns(k1, d, x) <==> Owns(k, d, x) || x == f
  {
    hide Slot;
    if r :| 0 <= r < SLOTS && Slot(k, d, r) == Some(x) { assert Slot(k1, d, r) == Some(x); }
    if r :| 0 <= r < SLOTS && Slot(k1, d, r) == Some(x) { assert r != s ==> Slot(k, d, r) == Some(x); }
    assert Slot(k1, d, s) == Some(f);
  }

  lemma OwnsLost(k: Kernel, k1: Kernel, d: nat, s: nat, f: nat, x: nat)
    requires OneSlot(k, k1, d, s, None) && Slot(k, d, s) == Some(f) && SlotsDistinct(k, d)
    ensures Owns(k, d, x) <==> Owns(k1, d, x) || x == f
    ensures !Owns(k1, d, f)
  {
    hide Slot;
    if r :| 0 <= r < SLOTS && Slot(k, d, r) == Some(x) { assert r != s ==> Slot(k1, d, r) == Some(x); }
    if r :| 0 <= r < SLOTS && Slot(k1, d, r) == Some(x) { assert Slot(k, d, r) == Some(x); }
  }

  /** An empty slot gets a frame that was free or in hand. */
  lemma Gained(k0: Kernel, k: Kernel, k1: Kernel, d: nat, s: nat, f: nat, hand: set<nat>, hand1: set<nat>)
    requires Conserved(k0, k, d, hand) && OneSlot(k, k1, d, s, Some(f)) && Slot(k, d, s) == None
    requires Distinct(k1.free) && f !in k1.free && f !in hand1 && (forall x :: x in k1.free ==> x !in hand1)
    requires forall x: nat :: x in k.free || x in hand <==> x in k1.free || x in hand1 || x == f
    requires forall x :: 0 <= x < |k.pages| && x !in k0.free ==> k1.pages[x] == k.pages[x]
    ensures Conserved(k0, k1, d, hand1)
  {
    hide Slot;
    forall x: nat ensures Owns(k1, d, x) <==> Owns(k, d, x) || x == f { OwnsGained(k, k1, d, s, f, x); }
  }

  /** The frame of a slot goes to the free list. */
  lemma Lost(k0: Kernel, k: Kernel, k1: Kernel, d: nat, s: nat, f: nat, hand: set<nat>)
    requires Conserved(k0, k, d, hand) && OneSlot(k, k1, d, s, None) && Slot(k, d, s) == Some(f)
    requires k1.free == [f] + k.free
    requires forall x :: 0 <= x < |k.pages| && x !in k0.free ==> k1.pages[x] == k.pages[x]
    ensures Conserved(k0, k1, d, hand)
  {
    hide Slot;
    forall x: nat ensures (Owns(k, d, x) <==> Owns(k1, d, x) || x == f) && !Owns(k1, d, f) { OwnsLost(k, k1, d, s, f, x); }
    assert Distinct(k1.free);
  }

  // ---------- walkpgdir and mappages ----------

  /** `walkpgdir` where it makes a table. */
  function NewTable(k: Kernel, d: nat, v: nat): Kernel
    requires Shaped(k, d) && v < VPAGES && k.free != [] && k.free[0] < |k.pages|
  {
    var t := k.free[0];
    Kernel(k.pages[t := Table(NoPtes())][d := Dir(k.pages[d].pdes[v / ENTRIES := Some(t)])], k.free[1..])
  }

  function SetPte(k: Kernel, d: nat, v: nat, pte: Pte): Kernel
    requires Shaped(k, d) && v < VPAGES && TableOf(k, d, v).Some?
  {
    var t := TableOf(k, d, v).value;
    k.(pages := k.pages[t := Table(k.pages[t].ptes[v % ENTRIES := pte])])
  }

  lemma NewTableSlots(k: Kernel, d: nat, v: nat)
    requires Shaped(k, d) && v < VPAGES && k.free != [] && k.free[0] < |k.pages|
    requires TableOf(k, d, v) == None && !Owns(k, d, k.free[0])
    ensures OneSlot(k, NewTable(k, d, v), d, TableSlot(v), Some(k.free[0]))
    ensures forall u :: 0 <= u < VPAGES ==> Lookup(NewTable(k, d, v), d, u) == Lookup(k, d, u)
  {
    var k1, t := NewTable(k, d, v), k.free[0];
    assert Slot(k, d, 0) == Some(d);
    forall i | 0 <= i < ENTRIES && k.pages[d].pdes[i].Some? ensures k.pages[d].pdes[i].value != t {
      assert Slot(k, d, 1 + i) == k.pages[d].pdes[i];
    }
    assert Shaped(k1, d);
    forall u | 0 <= u < VPAGES ensures Lookup(k1, d, u) == Lookup(k, d, u) { }
  }

  /** Setting an entry changes how that page is mapped, and no other. */
  lemma SetPteLookup(k: Kernel, d: nat, v: nat, pte: Pte, u: nat)
    requires Shaped(k, d) && v < VPAGES && TableOf(k, d, v).Some? && u < VPAGES
    requires forall i, j :: 0 <= i < j < ENTRIES && k.pages[d].pdes[i].Some? ==> k.pages[d].pdes[i] != k.pages[d].pdes[j]
    ensures Shaped(SetPte(k, d, v, pte), d) && Lookup(SetPte(k, d, v, pte), d, u) == if u == v then pte else Lookup(k, d, u)
  {
    if u / ENTRIES == v / ENTRIES && u != v { assert u % ENTRIES != v % ENTRIES; }
  }

  lemma TablesDistinct(k: Kernel, d: nat)
    requires Shaped(k, d) && SlotsDistinct(k, d)
    ensures forall i, j :: 0 <= i < j < ENTRIES && k.pages[d].pdes[i].Some? ==> k.pages[d].pdes[i] != k.pages[d].pdes[j]
  {
    forall i, j | 0 <= i < j < ENTRIES && k.pages[d].pdes[i].Some? ensures k.pages[d].pdes[i] != k.pages[d].pdes[j] {
      assert Slot(k, d, 1 + i) == k.pages[d].pdes[i] && Slot(k, d, 1 + j) == k.pages[d].pdes[j];
    }
  }

  function FrameOf(pte: Pte): Option<nat> { if pte.Present? then Some(pte.frame) else None }

  lemma SetPteSlots(k: Kernel, d: nat, v: nat, pte: Pte)
    requires Shaped(k, d) && SlotsDistinct(k, d) && v < VPAGES && TableOf(k, d, v).Some?
    ensures var k1 := SetPte(k, d, v, pte);
      && Shaped(k1, d) && (forall u :: 0 <= u < VPAGES ==> Lookup(k1, d, u) == if u == v then pte else Lookup(k, d, u))
      && (v < USER ==> OneSlot(k, k1, d, PageSlot(v), FrameOf(pte)))
      && (v >= USER ==> forall r :: 0 <= r < SLOTS ==> Slot(k1, d, r) == Slot(k, d, r))
  {
    hide Lookup;
    var k1 := SetPte(k, d, v, pte);
    TablesDistinct(k, d);
    forall u | 0 <= u < VPAGES ensures Shaped(k1, d) && Lookup(k1, d, u) == if u == v then pte else Lookup(k, d, u) {
      SetPteLookup(k, d, v, pte, u);
    }
    assert Lookup(k1, d, 0) == if 0 == v then pte else Lookup(k, d, 0);
  }

  datatype Outcome = Ok(k: Kernel) | OutOfMemory(k: Kernel) | Panic

  /** `mappages` of one page: a table is made if need be; a page that is mapped already is a panic. */
  function MapPage(k: Kernel, d: nat, v: nat, pte: Pte): Outcome
    requires Shaped(k, d) && v < VPAGES
  {
    if TableOf(k, d, v).None? && k.free == [] then OutOfMemory(k)
    else if TableOf(k, d, v).None? && k.free[0] >= |k.pages| then Panic
    else
      var k1 := if TableOf(k, d, v).None? then NewTable(k, d, v) else k;
      if !Shaped(k1, d) || TableOf(k1, d, v).None? || Lookup(k1, d, v).Present? then Panic else Ok(SetPte(k1, d, v, pte))
  }

  lemma NewTableOk(k0: Kernel, k: Kernel, d: nat, v: nat, hand: set<nat>)
    requires Conserved(k0, k, d, hand) && v < VPAGES && TableOf(k, d, v) == None && k.free != []
    ensures k.free[0] < |k.pages| && Conserved(k0, NewTable(k, d, v), d, hand) && TableOf(NewTable(k, d, v), d, v).Some?
    ensures forall u :: 0 <= u < VPAGES ==> Lookup(NewTable(k, d, v), d, u) == Lookup(k, d, u)
  {
    var t := k.free[0];
    assert t in k.free && t in k0.free;
    var k1 := NewTable(k, d, v);
    assert k.free == [t] + k1.free;
    NewTableSlots(k, d, v);
    assert Slot(k, d, TableSlot(v)) == None && Slot(k, d, 0) == Some(d);
    assert Owns(k, d, d);
    hide Slot, Lookup;
    Gained(k0, k, k1, d, TableSlot(v), t, hand, hand);
  }

  /** Mapping the frame in hand as a user page that was not mapped. */
  lemma MapUserOk(k0: Kernel, k: Kernel, d: nat, v: nat, f: nat, flags: nat)
    requires Conserved(k0, k, d, {f}) && v < USER && Lookup(k, d, v) == NotPresent
    ensures match MapPage(k, d, v, Present(f, flags))
      case Panic => false
      case OutOfMemory(k1) => k1 == k
      case Ok(k1) =>
        && Conserved(k0, k1, d, {})
        && (forall u :: 0 <= u < VPAGES ==> Lookup(k1, d, u) == if u == v then Present(f, flags) else Lookup(k, d, u))
  {
    if TableOf(k, d, v).Some? || k.free != [] {
      if TableOf(k, d, v).None? { NewTableOk(k0, k, d, v, {f}); }
      var k1 := if TableOf(k, d, v).None? then NewTable(k, d, v) else k;
      SetPteSlots(k1, d, v, Present(f, flags));
      var k2 := SetPte(k1, d, v, Present(f, flags));
      assert Slot(k1, d, PageSlot(v)) == None;
      TableIsOwned(k1, d, v);
      hide Slot, Lookup;
      Gained(k0, k1, k2, d, PageSlot(v), f, {f}, {});
    }
  }

  /** No page but the directory, a table or a free frame is written. */
  lemma MapKeepsData(k: Kernel, d: nat, v: nat, pte: Pte, x: nat)
    requires Shaped(k, d) && v < VPAGES && MapPage(k, d, v, pte).Ok? && x < |k.pages| && x !in k.free
    requires !k.pages[x].Dir? && !k.pages[x].Table?
    ensures |MapPage(k, d, v, pte).k.pages| == |k.pages| && MapPage(k, d, v, pte).k.pages[x] == k.pages[x]
  {
  }

  lemma TableIsOwned(k: Kernel, d: nat, v: nat)
    requires Shaped(k, d) && v < VPAGES && TableOf(k, d, v).Some?
    ensures Owns(k, d, TableOf(k, d, v).value)
  {
    assert Slot(k, d, TableSlot(v)) == TableOf(k, d, v);
  }

  /** Mapping any frame as a kernel page that was not mapped. */
  lemma MapKernelOk(k0: Kernel, k: Kernel, d: nat, v: nat, pte: Pte)
    requires Conserved(k0, k, d, {}) && USER <= v < VPAGES && Lookup(k, d, v) == NotPresent
    ensures match MapPage(k, d, v, pte)
      case Panic => false
      case OutOfMemory(k1) => k1 == k
      case Ok(k1) =>
        && Conserved(k0, k1, d, {})
        && (forall u :: 0 <= u < VPAGES ==> Lookup(k1, d, u) == if u == v then pte else Lookup(k, d, u))
  {
    if TableOf(k, d, v).Some? || k.free != [] {
      if TableOf(k, d, v).None? { NewTableOk(k0, k, d, v, {}); }
      var k1 := if TableOf(k, d, v).None? then NewTable(k, d, v) else k;
      SetPteSlots(k1, d, v, pte);
      var k2 := SetPte(k1, d, v, pte);
      TableIsOwned(k1, d, v);
      hide Slot, Lookup;
      SameConserved(k0, k1, k2, d, TableOf(k1, d, v).value);
    }
  }

  lemma SameConserved(k0: Kernel, k: Kernel, k1: Kernel, d: nat, t: nat)
    requires Conserved(k0, k, d, {}) && Shaped(k1, d) && k1.free == k.free && |k1.pages| == |k.pages| && Owns(k, d, t)
    requires forall s :: 0 <= s < SLOTS ==> Slot(k1, d, s) == Slot(k, d, s)
    requires forall x :: 0 <= x < |k.pages| && x != t ==> k1.pages[x] == k.pages[x]
    ensures Conserved(k0, k1, d, {})
  {
    hide Slot;
    forall x: nat ensures Owns(k1, d, x) <==> Owns(k, d, x) { SameOwns(k, k1, d, x); }
  }

  /** `mappages` of one page panics exactly if the page is mapped already, and runs out of memory, with
      nothing changed, exactly if it lacks a table and there is no frame for one. */
  lemma MapPageExact(k0: Kernel, k: Kernel, d: nat, v: nat, pte: Pte, hand: set<nat>)
    requires Conserved(k0, k, d, hand) && v < VPAGES
    ensures MapPage(k, d, v, pte) == Panic <==> Lookup(k, d, v).Present?
    ensures MapPage(k, d, v, pte).OutOfMemory? <==> TableOf(k, d, v).None? && k.free == []
    ensures MapPage(k, d, v, pte).OutOfMemory? ==> MapPage(k, d, v, pte).k == k
  {
    hide NewTable, Owns, Slot;
    if TableOf(k, d, v).None? && k.free != [] { NewTableOk(k0, k, d, v, hand); }
  }

  // ---------- deallocuvm and freevm ----------

  /** One mapped user page is freed. */
  function Dropped(k: Kernel, d: nat, v: nat): Kernel
    requires Shaped(k, d) && v < VPAGES && Lookup(k, d, v).Present?
  {
    var f, k1 := Lookup(k, d, v).frame, SetPte(k, d, v, NotPresent);
    if f < |k1.pages| then Put(k1, f) else k1
  }

  /** `deallocuvm` of the pages from `v` to `end`. */
  function Dealloc(k: Kernel, d: nat, v: nat, end: nat): Kernel
    requires Shaped(k, d) && end <= USER
    decreases end - v
  {
    if v >= end then k
    else if Lookup(k, d, v) == NotPresent then Dealloc(k, d, v + 1, end)
    else
      var k1 := Dropped(k, d, v);
      if Shaped(k1, d) then Dealloc(k1, d, v + 1, end) else k1
  }

  lemma DroppedOk(k0: Kernel, k: Kernel, d: nat, v: nat, hand: set<nat>)
    requires Conserved(k0, k, d, hand) && v < USER && Lookup(k, d, v).Present?
    ensures Conserved(k0, Dropped(k, d, v), d, hand)
    ensures forall u :: 0 <= u < VPAGES ==> Lookup(Dropped(k, d, v), d, u) == if u == v then NotPresent else Lookup(k, d, u)
  {
    var f, k1, k2 := Lookup(k, d, v).frame, SetPte(k, d, v, NotPresent), Dropped(k, d, v);
    assert Slot(k, d, PageSlot(v)) == Some(f);
    assert Owns(k, d, f);
    TableIsOwned(k, d, v);
    SetPteSlots(k, d, v, NotPresent);
    NotOwnedNow(k, k1, d, PageSlot(v), f);
    hide Slot, Lookup;
    SlotsElsewhere(k1, k2, d);
    Lost(k0, k, k2, d, PageSlot(v), f, hand);
  }

  lemma NotOwnedNow(k: Kernel, k1: Kernel, d: nat, s: nat, f: nat)
    requires OneSlot(k, k1, d, s, None) && Slot(k, d, s) == Some(f) && SlotsDistinct(k, d)
    ensures !Owns(k1, d, f)
  {
    OwnsLost(k, k1, d, s, f, f);
  }

  /** `deallocuvm` unmaps its range, and only that; the frames go to the free list. */
  lemma {:induction false} DeallocOk(k0: Kernel, k: Kernel, d: nat, v: nat, end: nat, hand: set<nat>)
    requires Conserved(k0, k, d, hand) && end <= USER
    ensures Conserved(k0, Dealloc(k, d, v, end), d, hand)
    ensures forall u :: 0 <= u < VPAGES ==>
      Lookup(Dealloc(k, d, v, end), d, u) == if v <= u < end then NotPresent else Lookup(k, d, u)
    decreases end - v
  {
    hide Lookup, Slot, SlotsDistinct, Owns;
    if v >= end {
    } else {
      if Lookup(k, d, v) == NotPresent {
        DeallocOk(k0, k, d, v + 1, end, hand);
      } else {
        DroppedOk(k0, k, d, v, hand);
        DeallocOk(k0, Dropped(k, d, v), d, v + 1, end, hand);
      }
    }
  }

  /** The loop of `freevm` over the directory, from entry `i` on. */
  function FreeTables(k: Kernel, pdes: seq<Option<nat>>, i: nat): Kernel
    decreases |pdes| - i
  {
    if i >= |pdes| then k
    else if pdes[i].Some? && pdes[i].value < |k.pages| then FreeTables(Put(k, pdes[i].value), pdes, i + 1)
    else FreeTables(k, pdes, i + 1)
  }

  function FreeVm(k: Kernel, d: nat): Kernel
    requires Shaped(k, d)
  {
    var k1 := Dealloc(k, d, 0, USER);
    if d >= |k1.pages| || !k1.pages[d].Dir? then k1
    else
      var k2 := FreeTables(k1, k1.pages[d].pdes, 0);
      if d < |k2.pages| then Put(k2, d) else k2
  }

  /** The frames free in `k0` are free again, each once, and no other frame has changed. */
  ghost predicate Restored(k0: Kernel, k: Kernel) {
    && |k.pages| == |k0.pages| && Distinct(k.free) && (forall f: nat :: f in k.free <==> f in k0.free)
    && forall f :: 0 <= f < |k.pages| && f !in k0.free ==> k.pages[f] == k0.pages[f]
  }

  /** The tables from entry `i` on, and the directory, are all that is left to free. */
  ghost predicate TablesLeft(k0: Kernel, k: Kernel, d: nat, pdes: seq<Option<nat>>, i: nat) { Whole(TablesLeftFacts(k0, k, d, pdes, i)) }

  ghost predicate TablesLeftFacts(k0: Kernel, k: Kernel, d: nat, pdes: seq<Option<nat>>, i: nat) {
    && |k.pages| == |k0.pages| && Distinct(k.free) && d !in k.free && d in k0.free && i <= |pdes|
    && (forall f :: f in k0.free ==> f < |k.pages|)
    && (forall j :: i <= j < |pdes| && pdes[j].Some? ==> pdes[j].value !in k.free && pdes[j].value != d)
    && (forall j, l :: i <= j < l < |pdes| && pdes[j].Some? ==> pdes[j] != pdes[l])
    && (forall f: nat :: f in k0.free <==> f in k.free || f == d || LeftTable(pdes, i, f))
    && forall f :: 0 <= f < |k.pages| && f !in k0.free ==> k.pages[f] == k0.pages[f]
  }

  ghost predicate LeftTable(pdes: seq<Option<nat>>, i: nat, f: nat) { exists j :: i <= j < |pdes| && pdes[j] == Some(f) }

  lemma LeftTableNext(pdes: seq<Option<nat>>, i: nat, f: nat)
    requires i < |pdes|
    ensures LeftTable(pdes, i, f) <==> LeftTable(pdes, i + 1, f) || pdes[i] == Some(f)
  {
  }

  lemma TablesLeftNext(k0: Kernel, k: Kernel, d: nat, pdes: seq<Option<nat>>, i: nat)
    requires TablesLeft(k0, k, d, pdes, i) && i < |pdes|
    ensures pdes[i].Some? ==> pdes[i].value < |k.pages| && pdes[i].value !in k.free && pdes[i].value != d
    ensures TablesLeft(k0, if pdes[i].Some? && pdes[i].value < |k.pages| then Put(k, pdes[i].value) else k, d, pdes, i + 1)
  {
    assert pdes[i].Some? ==> LeftTable(pdes, i, pdes[i].value);
    forall f: nat ensures LeftTable(pdes, i, f) <==> LeftTable(pdes, i + 1, f) || pdes[i] == Some(f) { LeftTableNext(pdes, i, f); }
    hide LeftTable;
  }

  lemma {:induction false} FreeTablesOk(k0: Kernel, k: Kernel, d: nat, pdes: seq<Option<nat>>, i: nat)
    requires TablesLeft(k0, k, d, pdes, i)
    ensures TablesLeft(k0, FreeTables(k, pdes, i), d, pdes, |pdes|)
    decreases |pdes| - i
  {
    if i >= |pdes| {
    } else {
      TablesLeftNext(k0, k, d, pdes, i);
      FreeTablesOk(k0, if pdes[i].Some? then Put(k, pdes[i].value) else k, d, pdes, i + 1);
    }
  }

  /** With no user page mapped, an address space owns its directory and its tables. */
  lemma OnlyTables(k0: Kernel, k: Kernel, d: nat)
    requires Conserved(k0, k, d, {}) && forall v :: 0 <= v < USER ==> Lookup(k, d, v) == NotPresent
    ensures TablesLeft(k0, k, d, k.pages[d].pdes, 0)
  {
    var pdes := k.pages[d].pdes;
    assert Slot(k, d, 0) == Some(d);
    assert Owns(k, d, d);
    TablesDistinct(k, d);
    forall j | 0 <= j < ENTRIES && pdes[j].Some? ensures pdes[j].value !in k.free && pdes[j].value != d {
      assert Slot(k, d, 1 + j) == pdes[j];
    }
    forall f: nat ensures Owns(k, d, f) <==> f == d || LeftTable(pdes, 0, f) {
      if s :| 0 <= s < SLOTS && Slot(k, d, s) == Some(f) {
        if 1 <= s <= ENTRIES { assert pdes[s - 1] == Some(f); }
      }
      if j :| 0 <= j < |pdes| && pdes[j] == Some(f) { assert Slot(k, d, 1 + j) == Some(f); }
    }
  }

  /** `freevm` returns every user frame, every table and the directory, each exactly once. */
  lemma FreeVmOk(k0: Kernel, k: Kernel, d: nat)
    requires Conserved(k0, k, d, {})
    ensures Restored(k0, FreeVm(k, d))
  {
    hide Lookup, Slot, SlotsDistinct, Owns, Dealloc, FreeTables;
    DeallocOk(k0, k, d, 0, USER, {});
    var k1 := Dealloc(k, d, 0, USER);
    OnlyTables(k0, k1, d);
    FreeTablesOk(k0, k1, d, k1.pages[d].pdes, 0);
  }

  // ---------- setupkvm ----------

  /** A run of kernel pages: `n` pages from page `v` on, mapped to frames from `frame` on. */
  datatype Region = Region(v: nat, n: nat, frame: nat, flags: nat)

  predicate InRegion(r: Region, u: nat) { r.v <= u < r.v + r.n }

  /** The kernel's map: runs above `KERNBASE`, none of them over another. */
  ghost predicate IsKmap(regions: seq<Region>) {
    && (forall i :: 0 <= i < |regions| ==> USER <= regions[i].v && regions[i].v + regions[i].n <= VPAGES)
    && forall i, j, u :: 0 <= i < j < |regions| && InRegion(regions[i], u) ==> !InRegion(regions[j], u)
  }

  function KernelPte(regions: seq<Region>, u: nat): Pte {
    if regions == [] then NotPresent
    else
      var r := regions[|regions| - 1];
      if InRegion(r, u) then Present(r.frame + (u - r.v), r.flags) else KernelPte(regions[..|regions| - 1], u)
  }

  /** `mappages`, from page `i` of the run on. */
  function MapPages(k: Kernel, d: nat, r: Region, i: nat): Outcome
    requires Shaped(k, d) && r.v + r.n <= VPAGES
    decreases r.n - i
  {
    if i >= r.n then Ok(k)
    else
      match MapPage(k, d, r.v + i, Present(r.frame + i, r.flags))
      case Panic => Panic
      case OutOfMemory(k1) => OutOfMemory(k1)
      case Ok(k1) => if Shaped(k1, d) then MapPages(k1, d, r, i + 1) else Panic
  }

  /** The loop of `setupkvm`, from run `i` on. */
  function MapRegions(k: Kernel, d: nat, regions: seq<Region>, i: nat): Outcome
    requires Shaped(k, d)
    decreases |regions| - i
  {
    if i >= |regions| then Ok(k)
    else if regions[i].v + regions[i].n > VPAGES then Panic
    else
      match MapPages(k, d, regions[i], 0)
      case Panic => Panic
      case OutOfMemory(k1) => OutOfMemory(k1)
      case Ok(k1) => if Shaped(k1, d) then MapRegions(k1, d, regions, i + 1) else Panic
  }

  /** A new address space, or none, and the kernel either way. */
  datatype Space = Space(k: Kernel, d: nat) | NoSpace(k: Kernel) | Halt

  function SetupKvm(k: Kernel, regions: seq<Region>): Space {
    if k.free == [] then NoSpace(k)
    else if k.free[0] >= |k.pages| then Halt
    else
      var d, k1 := k.free[0], Taken(k, Dir(NoPdes()));
      match MapRegions(k1, d, regions, 0)
      case Panic => Halt
      case OutOfMemory(k2) => if Shaped(k2, d) then NoSpace(FreeVm(k2, d)) else Halt
      case Ok(k2) => Space(k2, d)
  }

  /** The space maps what the first `i` runs say, and `n` pages of the next. */
  ghost predicate MapsSoFar(k: Kernel, d: nat, regions: seq<Region>, i: nat, n: nat) {
    && Shaped(k, d) && i <= |regions|
    && forall u: nat :: u < VPAGES ==>
      Lookup(k, d, u) ==
        if i < |regions| && regions[i].v <= u < regions[i].v + n then Present(regions[i].frame + (u - regions[i].v), regions[i].flags)
        else KernelPte(regions[..i], u)
  }

  lemma {:induction false} KernelPteOutside(regions: seq<Region>, i: nat, u: nat)
    requires IsKmap(regions) && i < |regions| && InRegion(regions[i], u)
    ensures KernelPte(regions[..i], u) == NotPresent
  {
    OutsideAll(regions[..i], u);
  }

  lemma {:induction false} OutsideAll(regions: seq<Region>, u: nat)
    requires forall i :: 0 <= i < |regions| ==> !InRegion(regions[i], u)
    ensures KernelPte(regions, u) == NotPresent
  {
    if regions == [] {
    } else {
      OutsideAll(regions[..|regions| - 1], u);
    }
  }

  lemma {:induction false} MapPagesOk(k0: Kernel, k: Kernel, d: nat, regions: seq<Region>, i: nat, n: nat)
    requires IsKmap(regions) && i < |regions| && n <= regions[i].n
    requires Conserved(k0, k, d, {}) && MapsSoFar(k, d, regions, i, n)
    ensures match MapPages(k, d, regions[i], n)
      case Panic => false
      case OutOfMemory(k1) => Conserved(k0, k1, d, {})
      case Ok(k1) => Conserved(k0, k1, d, {}) && MapsSoFar(k1, d, regions, i, regions[i].n)
    decreases regions[i].n - n
  {
    hide Lookup, Slot, SlotsDistinct, Owns, KernelPte, MapPage;
    if n == regions[i].n {
    } else {
      var v := regions[i].v + n;
      KernelPteOutside(regions, i, v);
      MapKernelOk(k0, k, d, v, Present(regions[i].frame + n, regions[i].flags));
      match MapPage(k, d, v, Present(regions[i].frame + n, regions[i].flags))
      case OutOfMemory(k1) =>
      case Ok(k1) =>
        assert MapsSoFar(k1, d, regions, i, n + 1);
        MapPagesOk(k0, k1, d, regions, i, n + 1);
    }
  }

  lemma {:induction false} MapRegionsOk(k0: Kernel, k: Kernel, d: nat, regions: seq<Region>, i: nat)
    requires IsKmap(regions) && i <= |regions| && Conserved(k0, k, d, {}) && MapsSoFar(k, d, regions, i, 0)
    ensures match MapRegions(k, d, regions, i)
      case Panic => false
      case OutOfMemory(k1) => Conserved(k0, k1, d, {})
      case Ok(k1) => Conserved(k0, k1, d, {}) && MapsSoFar(k1, d, regions, |regions|, 0)
    decreases |regions| - i
  {
    hide Lookup, Slot, SlotsDistinct, Owns, MapPages;
    if i == |regions| {
    } else {
      MapPagesOk(k0, k, d, regions, i, 0);
      match MapPages(k, d, regions[i], 0)
      case OutOfMemory(k1) =>
      case Ok(k1) =>
        assert regions[..i + 1][..i] == regions[..i];
        assert MapsSoFar(k1, d, regions, i + 1, 0);
        MapRegionsOk(k0, k1, d, regions, i + 1);
    }
  }

  ghost predicate FreeOk(k: Kernel) { Distinct(k.free) && forall f :: f in k.free ==> f < |k.pages| }

  lemma NewDirOk(k: Kernel, regions: seq<Region>)
    requires FreeOk(k) && k.free != []
    ensures k.free[0] < |k.pages|
    ensures var k1, d := Taken(k, Dir(NoPdes())), k.free[0]; Conserved(k, k1, d, {}) && MapsSoFar(k1, d, regions, 0, 0)
  {
    var d := k.free[0];
    assert d in k.free;
    var k1 := Taken(k, Dir(NoPdes()));
    assert k.free == [d] + k1.free;
    assert forall s :: 0 <= s < SLOTS ==> Slot(k1, d, s) == if s == 0 then Some(d) else None;
    assert Owns(k1, d, d) by { assert Slot(k1, d, 0) == Some(d); }
    hide Slot;
    forall f: nat ensures Owns(k1, d, f) <==> f == d { }
  }

  /** `setupkvm` makes an address space of frames that were free, which maps the kernel's map and
      nothing else, or fails and leaves everything as it was. */
  lemma SetupKvmOk(k: Kernel, regions: seq<Region>)
    requires FreeOk(k) && IsKmap(regions)
    ensures match SetupKvm(k, regions)
      case Halt => false
      case NoSpace(k1) => Restored(k, k1)
      case Space(k1, d) =>
        Conserved(k, k1, d, {}) && forall u: nat :: u < VPAGES ==> Lookup(k1, d, u) == KernelPte(regions, u)
  {
    hide Lookup, Slot, SlotsDistinct, Owns, MapRegions, FreeVm;
    if k.free != [] {
      NewDirOk(k, regions);
      var k1, d := Taken(k, Dir(NoPdes())), k.free[0];
      MapRegionsOk(k, k1, d, regions, 0);
      match MapRegions(k1, d, regions, 0)
      case OutOfMemory(k2) => FreeVmOk(k, k2, d);
      case Ok(k2) => assert regions[..|regions|] == regions;
    }
  }

  // ---------- copyuvm ----------

  /** The loop of `copyuvm`, from page `v` on. */
  function CopyFrom(k: Kernel, src: nat, d: nat, v: nat, n: nat): Outcome
    requires Shaped(k, src) && Shaped(k, d) && n <= USER
    decreases n - v
  {
    if v >= n then Ok(k)
    else if Lookup(k, src, v) == NotPresent then Panic
    else if k.free == [] then OutOfMemory(k)
    else
      var f, flags, mem := Lookup(k, src, v).frame, Lookup(k, src, v).flags, k.free[0];
      if f >= |k.pages| || mem >= |k.pages| then Panic
      else
        var k1 := Taken(k, k.pages[f]);
        if !Shaped(k1, d) then Panic
        else
          match MapPage(k1, d, v, Present(mem, flags))
          case Panic => Panic
          case OutOfMemory(k2) => if mem < |k2.pages| then OutOfMemory(Put(k2, mem)) else Panic
          case Ok(k2) => if Shaped(k2, src) && Shaped(k2, d) then CopyFrom(k2, src, d, v + 1, n) else Panic
  }

  function CopyUvm(k: Kernel, src: nat, n: nat, regions: seq<Region>): Space
    requires n <= USER
  {
    match SetupKvm(k, regions)
    case Halt => Halt
    case NoSpace(k1) => NoSpace(k1)
    case Space(k1, d) =>
      if !Shaped(k1, src) || !Shaped(k1, d) then Halt
      else
        match CopyFrom(k1, src, d, 0, n)
        case Panic => Halt
        case OutOfMemory(k2) => if Shaped(k2, d) then NoSpace(FreeVm(k2, d)) else Halt
        case Ok(k2) => Space(k2, d)
  }

  /** A parent of `n` pages: all of them present, in frames that hold data; nothing it owns is free. */
  ghost predicate IsParent(k: Kernel, src: nat, n: nat) {
    && Shaped(k, src) && n <= USER && (forall f :: Owns(k, src, f) ==> f !in k.free)
    && forall v :: 0 <= v < n ==>
      Lookup(k, src, v).Present? && Lookup(k, src, v).frame < |k.pages| && k.pages[Lookup(k, src, v).frame].Data?
  }

  /** Page `u` of `d` is in a frame of its own with the bytes and flags of the parent's page. */
  ghost predicate IsCopy(k0: Kernel, k: Kernel, src: nat, d: nat, u: nat)
    requires Shaped(k0, src) && Shaped(k, d) && u < VPAGES
  {
    var p, c := Lookup(k0, src, u), Lookup(k, d, u);
    && p.Present? && c.Present? && c.flags == p.flags && p.frame < |k0.pages| && c.frame < |k.pages|
    && k.pages[c.frame] == k0.pages[p.frame] && k0.pages[p.frame].Data?
  }

  /** The first `v` pages are copies; beyond them only the kernel is mapped. */
  ghost predicate Copied(k0: Kernel, k: Kernel, src: nat, d: nat, regions: seq<Region>, v: nat) {
    && Shaped(k0, src) && Shaped(k, d)
    && (forall u: nat :: u < v && u < USER ==> IsCopy(k0, k, src, d, u))
    && forall u: nat :: v <= u < VPAGES ==> Lookup(k, d, u) == KernelPte(regions, u)
  }

  /** The parent is not touched. */
  lemma ParentStays(k0: Kernel, k: Kernel, src: nat, d: nat, n: nat, hand: set<nat>)
    requires IsParent(k0, src, n) && Conserved(k0, k, d, hand)
    ensures Shaped(k, src) && forall v :: 0 <= v < VPAGES ==> Lookup(k, src, v) == Lookup(k0, src, v)
    ensures forall v :: 0 <= v < n ==> k.pages[Lookup(k0, src, v).frame] == k0.pages[Lookup(k0, src, v).frame]
  {
    SlotsElsewhere(k0, k, src);
    forall v | 0 <= v < n ensures k.pages[Lookup(k0, src, v).frame] == k0.pages[Lookup(k0, src, v).frame] {
      assert Slot(k0, src, PageSlot(v)) == Some(Lookup(k0, src, v).frame);
      assert Owns(k0, src, Lookup(k0, src, v).frame);
    }
  }

  lemma UserFrameOwned(k: Kernel, d: nat, u: nat)
    requires Shaped(k, d) && u < USER && Lookup(k, d, u).Present?
    ensures Owns(k, d, Lookup(k, d, u).frame)
  {
    assert Slot(k, d, PageSlot(u)) == Some(Lookup(k, d, u).frame);
  }

  lemma KernelAbove(regions: seq<Region>, u: nat)
    requires IsKmap(regions) && u < USER
    ensures KernelPte(regions, u) == NotPresent
  {
    OutsideAll(regions, u);
  }

  /** One turn of the loop of `copyuvm` that finds a frame and maps it. */
  lemma CopyOne(k0: Kernel, k: Kernel, src: nat, d: nat, regions: seq<Region>, v: nat, n: nat)
    requires IsParent(k0, src, n) && v < n && Conserved(k0, k, d, {}) && Copied(k0, k, src, d, regions, v) && IsKmap(regions)
    requires k.free != []
    ensures k.free[0] < |k.pages|
    ensures var f, mem := Lookup(k0, src, v).frame, k.free[0];
      && var k1 := Taken(k, k.pages[f]);
      && Conserved(k0, k1, d, {mem}) && Lookup(k1, d, v) == NotPresent
      && match MapPage(k1, d, v, Present(mem, Lookup(k0, src, v).flags))
        case Panic => false
        case OutOfMemory(k2) => k2 == k1
        case Ok(k2) => Conserved(k0, k2, d, {}) && Copied(k0, k2, src, d, regions, v + 1)
  {
    var pte, mem := Lookup(k0, src, v), k.free[0];
    ParentStays(k0, k, src, d, n, {});
    TakeToHand(k0, k, d, k.pages[pte.frame]);
    var k1 := Taken(k, k.pages[pte.frame]);
    KernelAbove(regions, v);
    MapUserOk(k0, k1, d, v, mem, pte.flags);
    match MapPage(k1, d, v, Present(mem, pte.flags))
    case OutOfMemory(k2) =>
    case Ok(k2) =>
      CopyKept(k0, k, src, d, regions, v, pte, k2);
  }

  lemma CopyKept(k0: Kernel, k: Kernel, src: nat, d: nat, regions: seq<Region>, v: nat, pte: Pte, k2: Kernel)
    requires Conserved(k0, k, d, {}) && Copied(k0, k, src, d, regions, v) && k.free != [] && k.free[0] < |k.pages|
    requires v < USER && pte == Lookup(k0, src, v) && pte.Present? && pte.frame < |k.pages|
    requires k.pages[pte.frame] == k0.pages[pte.frame] && k.pages[pte.frame].Data?
    requires var k1 := Taken(k, k.pages[pte.frame]);
      && Conserved(k0, k1, d, {k.free[0]}) && MapPage(k1, d, v, Present(k.free[0], pte.flags)) == Ok(k2)
    requires Conserved(k0, k2, d, {})
    requires forall u :: 0 <= u < VPAGES ==> Lookup(k2, d, u) == if u == v then Present(k.free[0], pte.flags) else Lookup(k, d, u)
    ensures Copied(k0, k2, src, d, regions, v + 1)
  {
    var mem, k1 := k.free[0], Taken(k, k.pages[pte.frame]);
    hide Slot, SlotsDistinct, KernelPte, Lookup, MapPage, Owns;
    MapKeepsData(k1, d, v, Present(mem, pte.flags), mem);
    forall u: nat | u < v + 1 && u < USER ensures IsCopy(k0, k2, src, d, u) {
      if u < v { CopyKeptAt(k0, k, src, d, v, pte, k2, u); }
    }
  }

  lemma CopyKeptAt(k0: Kernel, k: Kernel, src: nat, d: nat, v: nat, pte: Pte, k2: Kernel, u: nat)
    requires Conserved(k0, k, d, {}) && k.free != [] && k.free[0] < |k.pages| && Shaped(k0, src) && u < v < USER
    requires IsCopy(k0, k, src, d, u) && pte.Present? && pte.frame < |k.pages| && Shaped(k2, d)
    requires var k1 := Taken(k, k.pages[pte.frame]);
      Shaped(k1, d) && MapPage(k1, d, v, Present(k.free[0], pte.flags)) == Ok(k2)
    requires Lookup(k2, d, u) == Lookup(k, d, u)
    ensures IsCopy(k0, k2, src, d, u)
  {
    hide Slot, SlotsDistinct, Lookup, MapPage, Owns;
    var mem, k1, g := k.free[0], Taken(k, k.pages[pte.frame]), Lookup(k, d, u).frame;
    UserFrameNotFree(k0, k, d, u);
    assert mem in k.free;
    MapKeepsData(k1, d, v, Present(mem, pte.flags), g);
  }

  lemma UserFrameNotFree(k0: Kernel, k: Kernel, d: nat, u: nat)
    requires Conserved(k0, k, d, {}) && u < USER && Lookup(k, d, u).Present?
    ensures Lookup(k, d, u).frame !in k.free
  {
    assert Slot(k, d, PageSlot(u)) == Some(Lookup(k, d, u).frame);
  }

  lemma {:induction false} CopyFromOk(k0: Kernel, k: Kernel, src: nat, d: nat, regions: seq<Region>, v: nat, n: nat)
    requires IsParent(k0, src, n) && IsKmap(regions) && v <= n && Conserved(k0, k, d, {}) && Copied(k0, k, src, d, regions, v)
    ensures Shaped(k, src)
    ensures match CopyFrom(k, src, d, v, n)
      case Panic => false
      case OutOfMemory(k1) => Conserved(k0, k1, d, {})
      case Ok(k1) => Conserved(k0, k1, d, {}) && Copied(k0, k1, src, d, regions, n)
    decreases n - v
  {
    hide Slot, SlotsDistinct, KernelPte, Owns, MapPage, Copied, IsKmap;
    ParentStays(k0, k, src, d, n, {});
    if v >= n || k.free == [] {
    } else {
      CopyOne(k0, k, src, d, regions, v, n);
      var pte, mem := Lookup(k0, src, v), k.free[0];
      var k1 := Taken(k, k.pages[pte.frame]);
      match MapPage(k1, d, v, Present(mem, pte.flags))
      case OutOfMemory(k2) => HandToFree(k0, k1, d, mem);
      case Ok(k2) =>
        ParentStays(k0, k2, src, d, n, {});
        CopyFromOk(k0, k2, src, d, regions, v + 1, n);
    }
  }

  /** `copyuvm`: a child whose pages have the bytes and flags of the parent's, in frames that were
      free and that it shares with nobody, with the kernel mapped as in every address space; or
      failure, with exactly the frames free that were free before. The parent, and every other
      frame in use, stays as it was. */
  lemma CopyUvmOk(k: Kernel, src: nat, n: nat, regions: seq<Region>)
    requires FreeOk(k) && IsKmap(regions) && IsParent(k, src, n)
    ensures match CopyUvm(k, src, n, regions)
      case Halt => false
      case NoSpace(k1) => Restored(k, k1)
      case Space(k1, d) => Conserved(k, k1, d, {}) && Copied(k, k1, src, d, regions, n)
  {
    hide Slot, SlotsDistinct, KernelPte, Owns, SetupKvm, CopyFrom, FreeVm, IsKmap;
    SetupKvmOk(k, regions);
    match SetupKvm(k, regions)
    case NoSpace(k1) =>
    case Space(k1, d) =>
      ParentStays(k, k1, src, d, n, {});
      assert Copied(k, k1, src, d, regions, 0);
      CopyFromOk(k, k1, src, d, regions, 0, n);
      match CopyFrom(k1, src, d, 0, n)
      case OutOfMemory(k2) => FreeVmOk(k, k2, d);
      case Ok(k2) =>
  }

  // ---------- allocuvm ----------

  function ZeroPage(): Page { Data(seq(4096, i => 0)) }

  /** `allocuvm` of the pages from `first` to `end`, at page `v`; on failure the pages allocated so
      far are taken back. */
  function AllocFrom(k: Kernel, d: nat, first: nat, v: nat, end: nat, flags: nat): Outcome
    requires Shaped(k, d) && end <= USER
    decreases end - v
  {
    if v >= end then Ok(k)
    else if k.free == [] then OutOfMemory(Dealloc(k, d, first, end))
    else if k.free[0] >= |k.pages| then Panic
    else
      var mem, k1 := k.free[0], Taken(k, ZeroPage());
      if !Shaped(k1, d) then Panic
      else
        match MapPage(k1, d, v, Present(mem, flags))
        case Panic => Panic
        case OutOfMemory(k2) =>
          if !Shaped(k2, d) then Panic
          else
            var k3 := Dealloc(k2, d, first, end);
            if mem < |k3.pages| then OutOfMemory(Put(k3, mem)) else Panic
        case Ok(k2) => if Shaped(k2, d) then AllocFrom(k2, d, first, v + 1, end, flags) else Panic
  }

  ghost predicate IsZero(k: Kernel, d: nat, u: nat, flags: nat)
    requires Shaped(k, d) && u < VPAGES
  {
    var pte := Lookup(k, d, u);
    pte.Present? && pte.flags == flags && pte.frame < |k.pages| && k.pages[pte.frame] == ZeroPage()
  }

  /** `k` maps what `k1` does, and zeroed pages from `first` to `v`. */
  ghost predicate Grown(k1: Kernel, k: Kernel, d: nat, first: nat, v: nat, flags: nat) {
    && Shaped(k1, d) && Shaped(k, d) && v <= USER
    && (forall u: nat :: first <= u < v ==> IsZero(k, d, u, flags))
    && forall u: nat :: u < VPAGES && !(first <= u < v) ==> Lookup(k, d, u) == Lookup(k1, d, u)
  }

  lemma GrownKept(k0: Kernel, k1: Kernel, k: Kernel, d: nat, first: nat, v: nat, flags: nat, k2: Kernel)
    requires Conserved(k0, k, d, {}) && Grown(k1, k, d, first, v, flags) && k.free != [] && k.free[0] < |k.pages| && first <= v < USER
    requires var t := Taken(k, ZeroPage()); Conserved(k0, t, d, {k.free[0]}) && MapPage(t, d, v, Present(k.free[0], flags)) == Ok(k2)
    requires Conserved(k0, k2, d, {})
    requires forall u :: 0 <= u < VPAGES ==> Lookup(k2, d, u) == if u == v then Present(k.free[0], flags) else Lookup(k, d, u)
    ensures Grown(k1, k2, d, first, v + 1, flags)
  {
    var mem, t := k.free[0], Taken(k, ZeroPage());
    hide Slot, SlotsDistinct, ZeroPage, Lookup, MapPage, Owns;
    assert ZeroPage().Data? by { ZeroIsData(); }
    MapKeepsData(t, d, v, Present(mem, flags), mem);
    forall u: nat | first <= u < v + 1 ensures IsZero(k2, d, u, flags) {
      if u < v {
        assert IsZero(k, d, u, flags);
        UserFrameNotFree(k0, k, d, u);
        assert mem in k.free;
        MapKeepsData(t, d, v, Present(mem, flags), Lookup(k, d, u).frame);
      }
    }
  }

  lemma ZeroIsData()
    ensures ZeroPage().Data?
  {
  }

  /** `allocuvm` gives zeroed pages in frames of their own, or fails with everything mapped as before;
      no frame is lost or doubled either way. */
  lemma {:induction false} AllocFromOk(k0: Kernel, k1: Kernel, k: Kernel, d: nat, first: nat, v: nat, end: nat, flags: nat)
    requires Conserved(k0, k, d, {}) && Grown(k1, k, d, first, v, flags) && first <= v <= end <= USER
    requires forall u :: first <= u < end ==> Lookup(k1, d, u) == NotPresent
    ensures match AllocFrom(k, d, first, v, end, flags)
      case Panic => false
      case OutOfMemory(k2) => Conserved(k0, k2, d, {}) && forall u :: 0 <= u < VPAGES ==> Lookup(k2, d, u) == Lookup(k1, d, u)
      case Ok(k2) => Conserved(k0, k2, d, {}) && Grown(k1, k2, d, first, end, flags)
    decreases end - v
  {
    hide Slot, SlotsDistinct, Owns, MapPage, Dealloc, ZeroPage, Lookup;
    if v >= end {
    } else {
      if k.free == [] {
        DeallocOk(k0, k, d, first, end, {});
      } else {
        TakeToHand(k0, k, d, ZeroPage());
        var mem, t := k.free[0], Taken(k, ZeroPage());
        assert Lookup(k, d, v) == Lookup(k1, d, v);
        MapUserOk(k0, t, d, v, mem, flags);
        match MapPage(t, d, v, Present(mem, flags))
        case OutOfMemory(k2) =>
          DeallocOk(k0, t, d, first, end, {mem});
          HandToFree(k0, Dealloc(t, d, first, end), d, mem);
        case Ok(k2) =>
          GrownKept(k0, k1, k, d, first, v, flags, k2);
          AllocFromOk(k0, k1, k2, d, first, v + 1, end, flags);
      }
    }
  }
}
