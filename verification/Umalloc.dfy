/**
`umalloc.c` on values: the free list in address order, what `free` and `malloc` make of it, and
what they guarantee. Addresses and sizes are in units of a block header, eight bytes.
*/
module Umalloc {
  import opened Base

  const HEADER := 8
  const WORD := 0x1_0000_0000
  const KERNBASE := 0x8000_0000
  /** The least that is asked of `sbrk`. */
  const MORE := 4096

  datatype Chunk = Chunk(addr: nat, size: nat)

  predicate Has(c: Chunk, x: nat) { c.addr <= x < c.addr + c.size }

  /** The free list from its lowest block, the empty `base`, upwards; `at` is where `freep` points.
      `live` are the blocks handed out, `granted` the units that `sbrk` gave, `top` the end of the
      process's memory. */
  datatype Heap = Heap(free: seq<Chunk>, at: nat, live: map<nat, nat>, granted: set<nat>, top: nat)

  /** Ascending, and no two free blocks touch. */
  ghost predicate Ordered(free: seq<Chunk>) {
    forall i, j :: 0 <= i < j < |free| ==> free[i].addr + free[i].size < free[j].addr
  }

  /** `base` leads the list and is empty; all other blocks are not. */
  ghost predicate Based(free: seq<Chunk>) {
    0 < |free| && 0 < free[0].addr && free[0].size == 0 && forall i :: 1 <= i < |free| ==> 0 < free[i].size
  }

  ghost predicate Covers(free: seq<Chunk>, x: nat) { exists i :: 0 <= i < |free| && Has(free[i], x) }

  ghost predicate LiveAt(live: map<nat, nat>, x: nat) { exists a :: a in live && Has(Chunk(a, live[a]), x) }

  // ---------- free ----------

  /** How many free blocks start below `a`. */
  function Below(free: seq<Chunk>, a: nat): (k: nat)
    ensures k <= |free| && (k < |free| ==> a <= free[k].addr)
    ensures forall i :: 0 <= i < k ==> free[i].addr < a
  {
    if free == [] || a <= free[0].addr then 0 else 1 + Below(free[1..], a)
  }

  /** The block joined with the one above it, if they touch. */
  function JoinNext(free: seq<Chunk>, k: nat, c: Chunk): (Chunk, seq<Chunk>)
    requires k <= |free|
  {
    if k < |free| && c.addr + c.size == free[k].addr then (c.(size := c.size + free[k].size), free[k + 1..])
    else (c, free[k..])
  }

  /** The list with block `c` put in after the first `k`, joined on both sides where they touch. */
  function Insert(free: seq<Chunk>, k: nat, c: Chunk): seq<Chunk>
    requires 1 <= k <= |free|
  {
    var (c1, rest) := JoinNext(free, k, c);
    var p := free[k - 1];
    if p.addr + p.size == c.addr then free[..k - 1] + [p.(size := p.size + c1.size)] + rest
    else free[..k] + [c1] + rest
  }

  /** Block `c` fits between its neighbours. */
  predicate FitsAt(free: seq<Chunk>, k: nat, c: Chunk) {
    && 1 <= k <= |free| && 0 < c.size && free[k - 1].addr < c.addr
    && free[k - 1].addr + free[k - 1].size <= c.addr && (k < |free| ==> c.addr + c.size <= free[k].addr)
  }

  lemma JoinNextOk(free: seq<Chunk>, k: nat, c: Chunk)
    requires Ordered(free) && Based(free) && FitsAt(free, k, c)
    ensures var (c1, rest) := JoinNext(free, k, c);
      && c1.addr == c.addr && 0 < c1.size && |rest| <= |free| - k
      && (forall i :: 0 <= i < |rest| ==> rest[i] == free[|free| - |rest| + i] && c1.addr + c1.size < rest[i].addr)
      && (forall x :: Has(c1, x) || Covers(rest, x) <==> Has(c, x) || Covers(free[k..], x))
  {
    var (c1, rest) := JoinNext(free, k, c);
    if k < |free| && c.addr + c.size == free[k].addr {
      assert free[k..][0] == free[k];
      forall x ensures Covers(free[k..], x) <==> Has(free[k], x) || Covers(rest, x) {
        CoversSplit(free[k..], 1, x);
        assert free[k..][..1] == [free[k]] && free[k..][1..] == rest;
        assert Covers([free[k]], x) <==> Has([free[k]][0], x);
      }
    }
  }

  lemma CoversSplit(free: seq<Chunk>, k: nat, x: nat)
    requires k <= |free|
    ensures Covers(free, x) <==> Covers(free[..k], x) || Covers(free[k..], x)
  {
    if i :| 0 <= i < |free| && Has(free[i], x) {
      if i < k { assert Has(free[..k][i], x); } else { assert Has(free[k..][i - k], x); }
    }
    if i :| 0 <= i < |free[..k]| && Has(free[..k][i], x) { assert Has(free[i], x); }
    if i :| 0 <= i < |free[k..]| && Has(free[k..][i], x) { assert Has(free[k + i], x); }
  }

  lemma CoversJoin(a: seq<Chunk>, c: Chunk, b: seq<Chunk>, x: nat)
    ensures Covers(a + [c] + b, x) <==> Covers(a, x) || Has(c, x) || Covers(b, x)
  {
    var s := a + [c] + b;
    CoversSplit(s, |a|, x);
    CoversSplit(s[|a|..], 1, x);
    assert s[..|a|] == a && s[|a|..][..1] == [c] && s[|a|..][1..] == b;
    assert Covers([c], x) <==> Has([c][0], x);
  }

  /** Putting a block between ordered ones that it does not touch, or enlarging one up to there. */
  lemma OrderedJoin(a: seq<Chunk>, c: Chunk, b: seq<Chunk>)
    requires Ordered(a) && Ordered(b)
    requires forall i :: 0 <= i < |a| ==> a[i].addr + a[i].size < c.addr
    requires forall i :: 0 <= i < |b| ==> c.addr + c.size < b[i].addr
    ensures Ordered(a + [c] + b)
  {
    var s := a + [c] + b;
    forall i, j | 0 <= i < j < |s| ensures s[i].addr + s[i].size < s[j].addr {
      if i < |a| {
        assert s[i] == a[i];
        if j > |a| { assert s[j] == b[j - |a| - 1]; }
      } else {
        assert s[j] == b[j - |a| - 1];
        if i > |a| { assert s[i] == b[i - |a| - 1]; }
      }
    }
  }

  lemma InsertCovers(free: seq<Chunk>, k: nat, c: Chunk, x: nat)
    requires Ordered(free) && Based(free) && FitsAt(free, k, c)
    ensures Covers(Insert(free, k, c), x) <==> Covers(free, x) || Has(c, x)
  {
    hide Ordered, Covers, JoinNext;
    var (c1, rest) := JoinNext(free, k, c);
    var p := free[k - 1];
    JoinNextOk(free, k, c);
    CoversSplit(free, k, x);
    CoversSplit(free[..k], k - 1, x);
    CoversOne(p, x);
    assert free[..k][..k - 1] == free[..k - 1] && free[..k][k - 1..] == [p];
    CoversJoin(free[..k], c1, rest, x);
    CoversJoin(free[..k - 1], p.(size := p.size + c1.size), rest, x);
  }

  lemma InsertOk(free: seq<Chunk>, k: nat, c: Chunk)
    requires Ordered(free) && Based(free) && FitsAt(free, k, c)
    ensures var r := Insert(free, k, c);
      && Ordered(r) && Based(r) && k - 1 < |r| && r[k - 1].addr == free[k - 1].addr && r[0] == free[0]
      && forall x :: Covers(r, x) <==> Covers(free, x) || Has(c, x)
  {
    hide Ordered, Covers, JoinNext;
    var (c1, rest) := JoinNext(free, k, c);
    JoinNextOk(free, k, c);
    InsertOrdered(free, k, c, c1, rest);
    forall x ensures Covers(Insert(free, k, c), x) <==> Covers(free, x) || Has(c, x) { InsertCovers(free, k, c, x); }
  }

  lemma CoversOne(c: Chunk, x: nat)
    ensures Covers([c], x) <==> Has(c, x)
  {
    assert Covers([c], x) <==> Has([c][0], x);
  }

  lemma OrderedParts(free: seq<Chunk>, k: nat, rest: seq<Chunk>)
    requires Ordered(free) && 1 <= k <= |free| && |rest| <= |free| - k
    requires forall i :: 0 <= i < |rest| ==> rest[i] == free[|free| - |rest| + i]
    ensures Ordered(free[..k]) && Ordered(free[..k - 1]) && Ordered(rest)
    ensures forall i :: 0 <= i < k - 1 ==> free[i].addr + free[i].size < free[k - 1].addr
  {
  }

  lemma InsertOrdered(free: seq<Chunk>, k: nat, c: Chunk, c1: Chunk, rest: seq<Chunk>)
    requires Ordered(free) && FitsAt(free, k, c) && c1.addr == c.addr && |rest| <= |free| - k
    requires forall i :: 0 <= i < |rest| ==> rest[i] == free[|free| - |rest| + i] && c1.addr + c1.size < rest[i].addr
    ensures var p := free[k - 1];
      if p.addr + p.size == c.addr then Ordered(free[..k - 1] + [p.(size := p.size + c1.size)] + rest)
      else Ordered(free[..k] + [c1] + rest)
  {
    OrderedParts(free, k, rest);
    var p := free[k - 1];
    if p.addr + p.size == c.addr {
      OrderedJoin(free[..k - 1], p.(size := p.size + c1.size), rest);
    } else {
      OrderedJoin(free[..k], c1, rest);
    }
  }

  // ---------- the two kinds of blocks ----------

  predicate Apart(c: Chunk, d: Chunk) { c.addr + c.size <= d.addr || d.addr + d.size <= c.addr }

  ghost predicate LiveApart(live: map<nat, nat>) {
    forall a, b :: a in live && b in live && a != b ==> Apart(Chunk(a, live[a]), Chunk(b, live[b]))
  }

  ghost predicate FreeApart(free: seq<Chunk>, live: map<nat, nat>) {
    forall a, i :: a in live && 0 <= i < |free| ==> Apart(Chunk(a, live[a]), free[i])
  }

  /** Free and live blocks make up exactly the units obtained from `sbrk`, all of them between
      `base` and the end of the process's memory. */
  ghost predicate Accounted(h: Heap) {
    && 0 < |h.free| && h.free[0].addr < h.top
    && (forall x :: x in h.granted <==> Covers(h.free, x) || LiveAt(h.live, x))
    && (forall x :: x in h.granted ==> h.free[0].addr < x < h.top)
  }

  ghost predicate Valid(h: Heap) { Whole(ValidFacts(h)) }

  ghost predicate ValidFacts(h: Heap) {
    && Ordered(h.free) && Based(h.free) && h.at < |h.free| && HEADER * h.top < KERNBASE
    && (forall a :: a in h.live ==> 0 < h.live[a])
    && LiveApart(h.live) && FreeApart(h.free, h.live) && Accounted(h)
  }

  // ---------- free keeps the heap in order ----------

  function Free(h: Heap, a: nat): Heap
    requires a in h.live && 0 < Below(h.free, a)
  {
    var k := Below(h.free, a);
    h.(free := Insert(h.free, k, Chunk(a, h.live[a])), at := k - 1, live := h.live - {a})
  }

  lemma LiveAbove(h: Heap, a: nat)
    requires Valid(h) && a in h.live
    ensures h.free[0].addr < a && 0 < Below(h.free, a) && a + h.live[a] <= h.top
    ensures FitsAt(h.free, Below(h.free, a), Chunk(a, h.live[a]))
  {
    var c := Chunk(a, h.live[a]);
    assert Has(c, a) && Has(c, a + h.live[a] - 1);
    assert LiveAt(h.live, a) && LiveAt(h.live, a + h.live[a] - 1);
    var k := Below(h.free, a);
    assert Apart(c, h.free[k - 1]);
    if k < |h.free| { assert Apart(c, h.free[k]); }
  }

  lemma LiveWithout(live: map<nat, nat>, a: nat, x: nat)
    requires a in live
    ensures LiveAt(live, x) <==> LiveAt(live - {a}, x) || Has(Chunk(a, live[a]), x)
  {
    var rest := live - {a};
    if b :| b in live && Has(Chunk(b, live[b]), x) {
      if b != a { assert b in rest && Has(Chunk(b, rest[b]), x); }
    }
    if b :| b in rest && Has(Chunk(b, rest[b]), x) { assert b in live && Has(Chunk(b, live[b]), x); }
  }

  /** What keeps free and live blocks apart is that no unit is in both. */
  lemma ApartByUnits(c: Chunk, d: Chunk)
    requires 0 < c.size && 0 < d.size
    ensures Apart(c, d) <==> forall x :: !(Has(c, x) && Has(d, x))
  {
    if !Apart(c, d) {
      var x := Max(c.addr, d.addr);
      assert Has(c, x) && Has(d, x);
    }
  }

  lemma FreeApartAt(h: Heap, a: nat, b: nat, i: nat)
    requires Valid(h) && a in h.live && b in h.live && a != b && 0 < Below(h.free, a) && 0 < i < |Free(h, a).free|
    ensures Apart(Chunk(b, h.live[b]), Free(h, a).free[i])
  {
    hide Insert;
    var free, c, d := Free(h, a).free, Chunk(a, h.live[a]), Chunk(b, h.live[b]);
    LiveAbove(h, a);
    InsertOk(h.free, Below(h.free, a), c);
    assert Apart(d, c);
    assert forall x :: Has(free[i], x) ==> Covers(free, x);
    ApartByUnits(d, free[i]);
  }

  lemma FreeApartStays(h: Heap, a: nat)
    requires Valid(h) && a in h.live && 0 < Below(h.free, a)
    ensures FreeApart(Free(h, a).free, Free(h, a).live)
  {
    var h1 := Free(h, a);
    LiveAbove(h, a);
    InsertOk(h.free, Below(h.free, a), Chunk(a, h.live[a]));
    hide Insert, Ordered, Covers, Accounted, FreeApart, LiveApart;
    assert h1.free[0] == h.free[0];
    forall b, i | b in h1.live && 0 <= i < |h1.free| ensures Apart(Chunk(b, h1.live[b]), h1.free[i]) {
      LiveAbove(h, b);
      if i > 0 { FreeApartAt(h, a, b, i); }
    }
  }

  /** `free` of a live block keeps everything in order; the block's units, and only these, change
      from live to free. */
  lemma FreeOk(h: Heap, a: nat)
    requires Valid(h) && a in h.live
    ensures 0 < Below(h.free, a) && Valid(Free(h, a))
    ensures forall x :: Covers(Free(h, a).free, x) <==> Covers(h.free, x) || Has(Chunk(a, h.live[a]), x)
  {
    LiveAbove(h, a);
    FreeApartStays(h, a);
    var h1, c := Free(h, a), Chunk(a, h.live[a]);
    hide Ordered, Covers, LiveAt;
    InsertOk(h.free, Below(h.free, a), c);
    forall x ensures LiveAt(h.live, x) <==> LiveAt(h1.live, x) || Has(c, x) { LiveWithout(h.live, a, x); }
    assert LiveApart(h1.live);
    assert Accounted(h1);
  }

  // ---------- malloc ----------

  /** Units for a request: header included, in 32-bit arithmetic. */
  function UnitsFor(nbytes: nat): nat { ((nbytes + HEADER - 1) % WORD) / HEADER + 1 }

  /** Block `i` gives up its last `n` units, all of them if there are no more. */
  function Take(free: seq<Chunk>, i: nat, n: nat): seq<Chunk>
    requires i < |free| && n <= free[i].size
  {
    if free[i].size == n then free[..i] + free[i + 1..] else free[i := free[i].(size := free[i].size - n)]
  }

  /** What `Take` takes. */
  function Taken(c: Chunk, n: nat): Chunk
    requires n <= c.size
  {
    Chunk(c.addr + c.size - n, n)
  }

  /** The free block `d` links on from `at`. */
  function Around(free: seq<Chunk>, at: nat, d: nat): nat
    requires at < |free| && d <= |free|
  {
    if at + d < |free| then at + d else at + d - |free|
  }

  /** How many links the search follows, from `freep`, to a block of `n` units; one more than there
      are blocks if there is none. */
  function Find(free: seq<Chunk>, at: nat, n: nat, d: nat): (r: nat)
    requires at < |free| && 1 <= d <= |free| + 1
    ensures d <= r <= |free| + 1
    ensures r <= |free| ==> n <= free[Around(free, at, r)].size
    ensures forall e :: d <= e < r ==> free[Around(free, at, e)].size < n
    decreases |free| + 1 - d
  {
    if d == |free| + 1 || n <= free[Around(free, at, d)].size then d else Find(free, at, n, d + 1)
  }

  function Alloc(h: Heap, i: nat, n: nat): Heap
    requires 1 <= i < |h.free| && n <= h.free[i].size
  {
    h.(free := Take(h.free, i, n), at := i - 1, live := h.live[Taken(h.free[i], n).addr := n])
  }

  lemma TakeOk(free: seq<Chunk>, i: nat, n: nat)
    requires Ordered(free) && Based(free) && 1 <= i < |free| && 0 < n <= free[i].size
    ensures var r := Take(free, i, n);
      && Ordered(r) && Based(r) && i - 1 < |r| && r[0] == free[0]
      && forall x :: Covers(free, x) <==> Covers(r, x) || Has(Taken(free[i], n), x)
    ensures forall x :: !(Covers(Take(free, i, n), x) && Has(Taken(free[i], n), x))
  {
    var r, c := Take(free, i, n), free[i];
    assert free == free[..i] + [c] + free[i + 1..];
    forall x ensures Covers(free, x) <==> Covers(r, x) || Has(Taken(c, n), x) {
      CoversJoin(free[..i], c, free[i + 1..], x);
      if c.size == n {
        CoversSplit(r, i, x);
        assert r[..i] == free[..i] && r[i..] == free[i + 1..];
      } else {
        assert r == free[..i] + [r[i]] + free[i + 1..];
        CoversJoin(free[..i], r[i], free[i + 1..], x);
      }
    }
    forall x ensures !(Covers(r, x) && Has(Taken(c, n), x)) {
      if j :| 0 <= j < |r| && Has(r[j], x) && Has(Taken(c, n), x) {
        TakeIndex(free, i, n, j);
      }
    }
    TakeOrdered(free, i, n);
  }

  lemma TakeIndex(free: seq<Chunk>, i: nat, n: nat, j: nat)
    requires Ordered(free) && i < |free| && n <= free[i].size && j < |Take(free, i, n)|
    ensures Apart(Take(free, i, n)[j], Taken(free[i], n))
  {
    var m := if free[i].size == n && i <= j then j + 1 else j;
    assert Take(free, i, n)[j].addr == free[m].addr;
  }

  lemma TakeOrdered(free: seq<Chunk>, i: nat, n: nat)
    requires Ordered(free) && Based(free) && 1 <= i < |free| && 0 < n <= free[i].size
    ensures Ordered(Take(free, i, n)) && Based(Take(free, i, n))
  {
    var r := Take(free, i, n);
    assert forall j {:trigger r[j]} :: 0 <= j < |r| ==>
      r[j] == if free[i].size != n && j == i then free[i].(size := free[i].size - n) else if free[i].size == n && i <= j then free[j + 1] else free[j];
  }

  lemma AllocApart(h: Heap, i: nat, n: nat)
    requires Valid(h) && 1 <= i < |h.free| && 0 < n <= h.free[i].size
    ensures LiveApart(Alloc(h, i, n).live) && FreeApart(Alloc(h, i, n).free, Alloc(h, i, n).live)
    ensures Taken(h.free[i], n).addr !in h.live
  {
    var h1, c := Alloc(h, i, n), Taken(h.free[i], n);
    forall a | a in h.live ensures Apart(Chunk(a, h.live[a]), c) {
      assert Apart(Chunk(a, h.live[a]), h.free[i]);
    }
    forall a, j | a in h1.live && 0 <= j < |h1.free| ensures Apart(Chunk(a, h1.live[a]), h1.free[j]) {
      TakeIndex(h.free, i, n, j);
      var m := if h.free[i].size == n && i <= j then j + 1 else j;
      assert h1.free[j].addr == h.free[m].addr && h1.free[j].size <= h.free[m].size;
      if a in h.live { assert Apart(Chunk(a, h.live[a]), h.free[m]); }
    }
  }

  lemma LiveWith(live: map<nat, nat>, a: nat, n: nat, x: nat)
    requires a !in live
    ensures LiveAt(live[a := n], x) <==> LiveAt(live, x) || Has(Chunk(a, n), x)
  {
    LiveWithout(live[a := n], a, x);
    assert live[a := n] - {a} == live;
  }

  /** An allocation from a free block keeps everything in order; its units, and only these, change
      from free to live. */
  lemma AllocOk(h: Heap, i: nat, n: nat)
    requires Valid(h) && 1 <= i < |h.free| && 0 < n <= h.free[i].size
    ensures Valid(Alloc(h, i, n)) && Taken(h.free[i], n).addr !in h.live
    ensures forall x :: Covers(h.free, x) <==> Covers(Alloc(h, i, n).free, x) || Has(Taken(h.free[i], n), x)
  {
    var h1, c := Alloc(h, i, n), Taken(h.free[i], n);
    AllocApart(h, i, n);
    TakeOk(h.free, i, n);
    hide Ordered, Covers, LiveAt;
    forall x ensures LiveAt(h1.live, x) <==> LiveAt(h.live, x) || Has(c, x) { LiveWith(h.live, c.addr, n, x); }
    assert Accounted(h1);
  }

  // ---------- sbrk and morecore ----------

  /** The argument of `sbrk`: a product of 32 bits, taken as signed. */
  function Request(nu: nat): int {
    var bytes := (nu * HEADER) % WORD;
    if bytes < KERNBASE then bytes else bytes - WORD
  }

  /** `sbrk(n)` asks for exactly all memory to be given back: `deallocuvm` frees every page and returns
      0, which `growproc` takes for a failure. `sbrk` returns -1 to a process that has no memory left
      and faults. */
  predicate Wipes(top: nat, n: int) { n < 0 && top * HEADER + n == 0 }

  /** The end of memory after `sbrk(n)`, in units: growing fails at `KERNBASE` or for want of pages;
      a negative argument that goes below 0 in 32-bit arithmetic is taken as nothing to do. */
  function Sbrk(top: nat, n: int, outOfPages: bool): Option<nat> {
    var size := top * HEADER;
    if n > 0 then (if size + n >= KERNBASE || outOfPages then None else Some(top + n / HEADER))
    else if size + n < 0 then Some(top)
    else if Wipes(top, n) then None
    else Some((size + n) / HEADER)
  }

  function Span(a: nat, n: nat): set<nat> { set x | a <= x < a + n && Has(Chunk(a, n), x) }

  /** `morecore`: what `sbrk` returned is freed as a block of `nu` units. */
  function Morecore(h: Heap, n: nat, outOfPages: bool): Option<Heap>
    requires |h.free| > 0
  {
    var nu := Max(n, MORE);
    match Sbrk(h.top, Request(nu), outOfPages)
    case None => None
    case Some(top) =>
      var k := Max(1, Below(h.free, h.top));
      Some(h.(free := Insert(h.free, k, Chunk(h.top, nu)), at := k - 1,
              granted := h.granted + Span(h.top, nu), top := top))
  }

  datatype Result = Result(h: Heap, block: Option<nat>)

  /** `malloc`: the search; if it comes around without success, `morecore` and the search again. */
  function Malloc(h: Heap, nbytes: nat, outOfPages: bool): Result
    requires h.at < |h.free|
  {
    var n := UnitsFor(nbytes);
    var d := Find(h.free, h.at, n, 1);
    if d <= |h.free| then Allocated(h, Around(h.free, h.at, d), n)
    else
      match Morecore(h, n, outOfPages)
      case None => Result(h, None)
      case Some(h1) =>
        if h1.at >= |h1.free| then Result(h1, None)
        else
          var e := Find(h1.free, h1.at, n, 1);
          if e <= |h1.free| then Allocated(h1, Around(h1.free, h1.at, e), n) else Result(h1, None)
  }

  function Allocated(h: Heap, i: nat, n: nat): Result
    requires i < |h.free| && n <= h.free[i].size
  {
    if i == 0 then Result(h, None) else Result(Alloc(h, i, n), Some(Taken(h.free[i], n).addr))
  }

  // ---------- malloc is sound ----------

  /** The largest request that stays clear of 32-bit trouble, in bytes. */
  const LARGEST := KERNBASE - 2 * HEADER

  lemma UnitsOk(nbytes: nat)
    requires nbytes < WORD
    ensures nbytes <= (UnitsFor(nbytes) - 1) * HEADER <==> nbytes <= WORD - HEADER
    ensures nbytes <= WORD - HEADER ==> UnitsFor(nbytes) * HEADER < nbytes + 2 * HEADER
    ensures nbytes <= LARGEST ==> UnitsFor(nbytes) * HEADER < KERNBASE
    ensures LARGEST < nbytes <= WORD - HEADER ==> KERNBASE <= UnitsFor(nbytes) * HEADER <= WORD
  {
  }

  /** After an insertion there is a block at least as large as what was put in. */
  lemma InsertBig(free: seq<Chunk>, k: nat, c: Chunk) returns (i: nat)
    requires Based(free) && FitsAt(free, k, c)
    ensures 1 <= i < |Insert(free, k, c)| && Insert(free, k, c)[i].addr <= c.addr
    ensures var d := Insert(free, k, c)[i]; c.addr + c.size <= d.addr + d.size
  {
    i := if free[k - 1].addr + free[k - 1].size == c.addr then k - 1 else k;
  }

  /** The search follows every link: it misses no block that is large enough. */
  lemma FindMeets(free: seq<Chunk>, at: nat, n: nat, i: nat)
    requires at < |free| && i < |free| && n <= free[i].size
    ensures Find(free, at, n, 1) <= |free|
  {
    var d := if at < i then i - at else i + |free| - at;
    assert Around(free, at, d) == i;
  }

  lemma TopFits(h: Heap, c: Chunk)
    requires Valid(h) && c.addr == h.top && 0 < c.size
    ensures Below(h.free, h.top) == |h.free| && FitsAt(h.free, |h.free|, c)
    ensures forall i :: 0 <= i < |h.free| ==> h.free[i].addr + h.free[i].size <= h.top
    ensures forall a :: a in h.live ==> a + h.live[a] <= h.top
  {
    forall i | 0 <= i < |h.free| ensures h.free[i].addr + h.free[i].size <= h.top && h.free[i].addr < h.top {
      if i > 0 {
        assert Has(h.free[i], h.free[i].addr + h.free[i].size - 1);
        assert Covers(h.free, h.free[i].addr + h.free[i].size - 1);
      }
    }
    forall a | a in h.live ensures a + h.live[a] <= h.top { LiveAbove(h, a); }
  }

  /** The heap with `nu` more units at its end. */
  function Grown(h: Heap, nu: nat, top: nat): Heap
    requires 0 < |h.free|
  {
    h.(free := Insert(h.free, |h.free|, Chunk(h.top, nu)), at := |h.free| - 1,
       granted := h.granted + Span(h.top, nu), top := top)
  }

  lemma SbrkGrows(top: nat, nu: nat, outOfPages: bool)
    requires 0 < nu && nu * HEADER < KERNBASE
    ensures var r := Sbrk(top, Request(nu), outOfPages);
      r == if (top + nu) * HEADER >= KERNBASE || outOfPages then None else Some(top + nu)
  {
  }

  lemma GrownOk(h: Heap, nu: nat)
    requires Valid(h) && 0 < nu && HEADER * (h.top + nu) < KERNBASE
    ensures Valid(Grown(h, nu, h.top + nu))
  {
    var h1, c := Grown(h, nu, h.top + nu), Chunk(h.top, nu);
    TopFits(h, c);
    InsertOk(h.free, |h.free|, c);
    MorecoreApart(h, c, h1.free);
    hide Ordered, Covers, LiveAt, FreeApart, LiveApart, Insert;
    assert Accounted(h1);
  }

  lemma MorecoreIs(h: Heap, n: nat, outOfPages: bool)
    requires Valid(h)
    ensures var nu := Max(n, MORE);
      Morecore(h, n, outOfPages) ==
        match Sbrk(h.top, Request(nu), outOfPages) case None => None case Some(top) => Some(Grown(h, nu, top))
  {
    hide Insert, Sbrk, Request;
    TopFits(h, Chunk(h.top, Max(n, MORE)));
  }

  /** Whatever `sbrk` did, the block of `morecore` serves the request. */
  lemma MorecoreServes(h: Heap, nu: nat, top: nat, n: nat)
    requires Valid(h) && 0 < n <= nu
    ensures var h1 := Grown(h, nu, top); h1.at < |h1.free| && Find(h1.free, h1.at, n, 1) <= |h1.free|
  {
    hide Insert;
    var h1, c := Grown(h, nu, top), Chunk(h.top, nu);
    TopFits(h, c);
    InsertOk(h.free, |h.free|, c);
    var i := InsertBig(h.free, |h.free|, c);
    FindMeets(h1.free, h1.at, n, i);
  }

  lemma MorecoreApart(h: Heap, c: Chunk, free: seq<Chunk>)
    requires Valid(h) && c.addr == h.top && 0 < c.size && FitsAt(h.free, |h.free|, c)
    requires free == Insert(h.free, |h.free|, c)
    ensures FreeApart(free, h.live)
  {
    TopFits(h, c);
    forall a, i | a in h.live && 0 <= i < |free| ensures Apart(Chunk(a, h.live[a]), free[i]) {
      if i < |h.free| { assert Apart(Chunk(a, h.live[a]), h.free[i]); }
    }
  }

  lemma FoundOk(h: Heap, n: nat)
    requires Valid(h) && 0 < n && Find(h.free, h.at, n, 1) <= |h.free|
    ensures var r := Allocated(h, Around(h.free, h.at, Find(h.free, h.at, n, 1)), n);
      && r.block.Some? && Valid(r.h) && r.block.value !in h.live && r.h.live == h.live[r.block.value := n]
      && r.h.granted == h.granted && r.h.top == h.top
  {
    AllocOk(h, Around(h.free, h.at, Find(h.free, h.at, n, 1)), n);
  }

  lemma FoundFits(h: Heap, n: nat)
    requires h.at < |h.free| && Find(h.free, h.at, n, 1) <= |h.free|
    ensures SomeFits(h.free, n)
  {
    assert n <= h.free[Around(h.free, h.at, Find(h.free, h.at, n, 1))].size;
  }

  lemma NoneFits(h: Heap, n: nat)
    requires h.at < |h.free| && Find(h.free, h.at, n, 1) > |h.free|
    ensures forall i :: 0 <= i < |h.free| ==> h.free[i].size < n
  {
    forall i | 0 <= i < |h.free| ensures h.free[i].size < n {
      if n <= h.free[i].size { FindMeets(h.free, h.at, n, i); }
    }
  }

  ghost predicate SomeFits(free: seq<Chunk>, n: nat) { exists i :: 0 <= i < |free| && n <= free[i].size }

  /** `sbrk` has no room for `nu` more units. */
  predicate Refuses(top: nat, nu: nat, outOfPages: bool) { outOfPages || (top + nu) * HEADER >= KERNBASE }

  /** A request of at most `LARGEST` bytes, in every valid heap: `malloc` fails exactly when no free
      block is large enough and `sbrk` refuses, and then changes nothing; else it hands out a new
      block, apart from all others, that holds the bytes. Memory grows exactly when no block fits. */
  lemma MallocOk(h: Heap, nbytes: nat, outOfPages: bool)
    requires Valid(h) && nbytes <= LARGEST
    ensures var r, n := Malloc(h, nbytes, outOfPages), UnitsFor(nbytes);
      && (r.block == None <==> !SomeFits(h.free, n) && Refuses(h.top, Max(n, MORE), outOfPages))
      && match r.block
         case None => r.h == h
         case Some(a) =>
           && Valid(r.h) && a !in h.live && r.h.live == h.live[a := n] && nbytes <= (n - 1) * HEADER
           && r.h.granted == (if SomeFits(h.free, n) then h.granted else h.granted + Span(h.top, Max(n, MORE)))
           && r.h.top == (if SomeFits(h.free, n) then h.top else h.top + Max(n, MORE))
  {
    hide Insert, Sbrk, Request, UnitsFor, Allocated, Find, Around, Ordered, LiveApart, FreeApart, Accounted, Based, Span;
    var n := UnitsFor(nbytes);
    UnitsOk(nbytes);
    if Find(h.free, h.at, n, 1) <= |h.free| {
      FoundFits(h, n);
      FoundOk(h, n);
    } else {
      NoneFits(h, n);
      var nu := Max(n, MORE);
      MorecoreIs(h, n, outOfPages);
      SbrkGrows(h.top, nu, outOfPages);
      if Morecore(h, n, outOfPages).Some? {
        GrownOk(h, nu);
        MorecoreServes(h, nu, h.top + nu, n);
        FoundOk(Grown(h, nu, h.top + nu), n);
      }
    }
  }

  // ---------- exactly the requests that can be relied on ----------

  /** The request fails, or the block holds its bytes and lies in the process's memory. */
  predicate Good(nbytes: nat, r: Result) {
    r.block.Some? ==>
      nbytes <= (UnitsFor(nbytes) - 1) * HEADER && r.block.value + UnitsFor(nbytes) <= r.h.top
  }

  ghost predicate Reliable(nbytes: nat) {
    forall h, outOfPages :: Valid(h) ==> Good(nbytes, Malloc(h, nbytes, outOfPages))
  }

  lemma MallocGood(h: Heap, nbytes: nat, outOfPages: bool)
    requires Valid(h) && nbytes <= LARGEST
    ensures Good(nbytes, Malloc(h, nbytes, outOfPages))
  {
    hide Malloc, UnitsFor;
    MallocOk(h, nbytes, outOfPages);
    var r := Malloc(h, nbytes, outOfPages);
    if r.block.Some? { LiveAbove(r.h, r.block.value); }
  }

  const PAGE := 4096

  /** Unit `a` lies in a page that a process of `top` units still has. */
  predicate Mapped(top: nat, a: nat) { a * HEADER < (top * HEADER + PAGE - 1) / PAGE * PAGE }

  /** When `morecore` writes the header of its block, at the old end of memory, the page is there
      after every request that fits, and after a larger one exactly if the memory, which shrank, still
      ends inside the same page. Otherwise the process faults there and `malloc` does not return. */
  lemma HeaderMapped(top: nat, nu: nat, outOfPages: bool)
    requires 0 < nu && nu * HEADER <= WORD && Sbrk(top, Request(nu), outOfPages).Some?
    ensures var end := Sbrk(top, Request(nu), outOfPages).value;
      Mapped(end, top) <==>
        nu * HEADER < KERNBASE || (end * HEADER % PAGE != 0 && end * HEADER / PAGE == top * HEADER / PAGE)
  {
    var end := Sbrk(top, Request(nu), outOfPages).value;
    if nu * HEADER < KERNBASE {
      SbrkGrows(top, nu, outOfPages);
      PageEnd(end * HEADER, top * HEADER);
    } else {
      SbrkNeverGrows(top, nu, outOfPages);
      PageEnd(end * HEADER, top * HEADER);
    }
  }

  lemma PageEnd(end: nat, x: nat)
    ensures x < end ==> x < (end + PAGE - 1) / PAGE * PAGE
    ensures end <= x ==> (x < (end + PAGE - 1) / PAGE * PAGE <==> end % PAGE != 0 && end / PAGE == x / PAGE)
  {
  }

  /** A request too large to be served: `sbrk` wipes the memory, or the block begins where the memory
      ended. */
  lemma HugeMisplaced(h: Heap, nbytes: nat, outOfPages: bool)
    requires Valid(h) && LARGEST < nbytes <= WORD - HEADER
    ensures var r, n := Malloc(h, nbytes, outOfPages), UnitsFor(nbytes);
      match Sbrk(h.top, Request(n), outOfPages)
      case None => r.block == None && Wipes(h.top, Request(n))
      case Some(top) => top <= h.top && r.h.top == top && r.block == Some(h.top)
  {
    hide Insert, Sbrk, Request, UnitsFor, Ordered, LiveApart, FreeApart, Accounted, Span;
    var n := UnitsFor(nbytes);
    UnitsOk(nbytes);
    var c := Chunk(h.top, n);
    TopFits(h, c);
    MorecoreIs(h, n, outOfPages);
    SbrkNeverGrows(h.top, n, outOfPages);
    match Sbrk(h.top, Request(n), outOfPages)
    case None =>
    case Some(top) =>
      MorecoreServes(h, n, top, n);
      GrownEnds(h, n, top);
  }

  lemma SbrkNeverGrows(top: nat, n: nat, outOfPages: bool)
    requires KERNBASE <= n * HEADER <= WORD
    ensures var r := Sbrk(top, Request(n), outOfPages); if r.Some? then r.value <= top else Wipes(top, Request(n))
  {
  }

  /** Every block of the grown list ends below the old end of memory, or is the last and ends with
      the new units. */
  lemma GrownEnds(h: Heap, nu: nat, top: nat)
    requires Valid(h) && 0 < nu
    ensures var free := Grown(h, nu, top).free;
      forall i :: 0 <= i < |free| ==>
        free[i].addr + free[i].size <= h.top || (0 < i && free[i].addr + free[i].size == h.top + nu)
  {
    TopFits(h, Chunk(h.top, nu));
  }

  /** A process that has not allocated yet, with `base` at the start of its memory. */
  function Fresh(top: nat): Heap { Heap([Chunk(1, 0)], 0, map[], {}, top) }

  lemma FreshValid(top: nat)
    requires 1 < top && HEADER * top < KERNBASE
    ensures Valid(Fresh(top))
  {
  }

  /** `malloc` can be relied on exactly up to `LARGEST` bytes. */
  lemma ReliableExactly(nbytes: nat)
    requires nbytes < WORD
    ensures Reliable(nbytes) <==> nbytes <= LARGEST
  {
    hide Malloc, UnitsFor, Ordered, LiveApart, FreeApart, Accounted, Based;
    if nbytes <= LARGEST {
      forall h, outOfPages | Valid(h) ensures Good(nbytes, Malloc(h, nbytes, outOfPages)) {
        MallocGood(h, nbytes, outOfPages);
      }
    } else {
      var h := Unlucky(nbytes);
      assert !Good(nbytes, Malloc(h, nbytes, false));
    }
  }

  lemma Unlucky(nbytes: nat) returns (h: Heap)
    requires LARGEST < nbytes < WORD
    ensures Valid(h) && !Good(nbytes, Malloc(h, nbytes, false))
  {
    hide Ordered, LiveApart, FreeApart, Accounted, Sbrk, Request, Insert;
    var n := UnitsFor(nbytes);
    UnitsOk(nbytes);
    FreshValid(2);
    FreshValid(3);
    SbrkOnce(n);
    if nbytes <= WORD - HEADER {
      h := if Sbrk(2, Request(n), false).None? then Fresh(3) else Fresh(2);
      HugeMisplaced(h, nbytes, false);
    } else {
      h := Fresh(2);
      assert n == UnitsFor(0);
      MallocOk(h, 0, false);
    }
  }

  lemma SbrkOnce(n: nat)
    requires n * HEADER <= WORD
    ensures Sbrk(2, Request(n), false).None? && KERNBASE <= n * HEADER ==> Sbrk(3, Request(n), false).Some?
  {
  }

  // ---------- the free list is determined by the free units ----------

  /** Two lists in order that cover the same units are the same list. */
  lemma Canonical(f: seq<Chunk>, g: seq<Chunk>)
    requires Ordered(f) && Based(f) && Ordered(g) && Based(g) && f[0] == g[0]
    requires forall x :: Covers(f, x) <==> Covers(g, x)
    ensures f == g
  {
    CanonicalPrefix(f, g, |f|);
    CanonicalPrefix(g, f, |g|);
  }

  lemma {:induction false} CanonicalPrefix(f: seq<Chunk>, g: seq<Chunk>, k: nat)
    requires Ordered(f) && Based(f) && Ordered(g) && Based(g) && f[0] == g[0] && k <= |f|
    requires forall x :: Covers(f, x) <==> Covers(g, x)
    ensures k <= |g| && f[..k] == g[..k]
  {
    if k <= 1 {
    } else {
      CanonicalPrefix(f, g, k - 1);
      CanonicalStarts(f, g, k - 1);
      CanonicalSize(f, g, k - 1);
      CanonicalSize(g, f, k - 1);
    }
  }

  lemma StartCovered(f: seq<Chunk>, g: seq<Chunk>, k: nat) returns (j: nat)
    requires Ordered(f) && Based(f) && 1 <= k < |f| && k <= |g| && f[..k] == g[..k]
    requires forall x :: Covers(f, x) <==> Covers(g, x)
    ensures k <= j < |g| && g[j].addr <= f[k].addr
  {
    assert Has(f[k], f[k].addr);
    assert Covers(f, f[k].addr);
    assert forall i :: 0 <= i < k ==> g[i] == g[..k][i] == f[..k][i] == f[i];
    j :| 0 <= j < |g| && Has(g[j], f[k].addr);
  }

  lemma CanonicalStarts(f: seq<Chunk>, g: seq<Chunk>, k: nat)
    requires Ordered(f) && Based(f) && Ordered(g) && Based(g) && 1 <= k < |f| && k <= |g| && f[..k] == g[..k]
    requires forall x :: Covers(f, x) <==> Covers(g, x)
    ensures k < |g| && g[k].addr == f[k].addr
  {
    var j := StartCovered(f, g, k);
    var i := StartCovered(g, f, k);
  }

  lemma CanonicalSize(f: seq<Chunk>, g: seq<Chunk>, k: nat)
    requires Ordered(f) && Based(f) && Ordered(g) && 1 <= k < |f| && k < |g| && f[k].addr == g[k].addr
    requires forall x :: Covers(f, x) <==> Covers(g, x)
    ensures g[k].size <= f[k].size
  {
    var x := f[k].addr + f[k].size;
    if f[k].size < g[k].size {
      assert Has(g[k], x);
      assert Covers(g, x);
      var i :| 0 <= i < |f| && Has(f[i], x);
    }
  }

  /** Freeing what was just allocated restores the free list exactly, joins and all. */
  lemma AllocFree(h: Heap, i: nat, n: nat)
    requires Valid(h) && 1 <= i < |h.free| && 0 < n <= h.free[i].size
    ensures var h1, a := Alloc(h, i, n), Taken(h.free[i], n).addr;
      && a in h1.live && 0 < Below(h1.free, a)
      && Free(h1, a).free == h.free && Free(h1, a).live == h.live && Free(h1, a).granted == h.granted
  {
    hide Insert, Take, LiveApart, FreeApart, Accounted;
    var h1, c := Alloc(h, i, n), Taken(h.free[i], n);
    AllocOk(h, i, n);
    TakeOk(h.free, i, n);
    FreeOk(h1, c.addr);
    LiveAbove(h1, c.addr);
    InsertOk(h1.free, Below(h1.free, c.addr), c);
    Canonical(Free(h1, c.addr).free, h.free);
    assert h1.live - {c.addr} == h.live;
  }

  /** The order in which blocks are freed does not matter. */
  lemma FreeCommutes(h: Heap, a: nat, b: nat)
    requires Valid(h) && a in h.live && b in h.live && a != b
    ensures 0 < Below(h.free, a) && 0 < Below(h.free, b)
    ensures 0 < Below(Free(h, a).free, b) && 0 < Below(Free(h, b).free, a)
    ensures Free(Free(h, a), b).free == Free(Free(h, b), a).free
  {
    hide Insert, LiveApart, FreeApart, Accounted;
    FreeOk(h, a);
    FreeOk(h, b);
    FreeOk(Free(h, a), b);
    FreeOk(Free(h, b), a);
    FreeKeepsBase(h, a);
    FreeKeepsBase(h, b);
    FreeKeepsBase(Free(h, a), b);
    FreeKeepsBase(Free(h, b), a);
    Canonical(Free(Free(h, a), b).free, Free(Free(h, b), a).free);
  }

  lemma FreeKeepsBase(h: Heap, a: nat)
    requires Valid(h) && a in h.live
    ensures 0 < Below(h.free, a) && |Free(h, a).free| > 0 && Free(h, a).free[0] == h.free[0]
  {
    LiveAbove(h, a);
    InsertOk(h.free, Below(h.free, a), Chunk(a, h.live[a]));
  }

  // ---------- runs ----------

  /** Other code of the process may move the end of memory as well. */
  datatype Step = DoMalloc(nbytes: nat, outOfPages: bool) | DoFree(a: nat) | OtherSbrk(units: nat)

  ghost predicate Next(h: Heap, step: Step, h1: Heap) {
    && h.at < |h.free|
    && match step
      case DoMalloc(nbytes, outOfPages) => nbytes <= LARGEST && h1 == Malloc(h, nbytes, outOfPages).h
      case DoFree(a) => a in h.live && 0 < Below(h.free, a) && h1 == Free(h, a)
      case OtherSbrk(units) => HEADER * (h.top + units) < KERNBASE && h1 == h.(top := h.top + units)
  }

  ghost predicate Run(top: nat, hs: seq<Heap>, steps: seq<Step>) {
    && 1 < top && HEADER * top < KERNBASE && |hs| == |steps| + 1 && hs[0] == Fresh(top)
    && forall i {:trigger steps[i]} :: 0 <= i < |steps| ==> Next(hs[i], steps[i], hs[i + 1])
  }

  /** Over every run of reliable requests and of frees of live blocks, the heap stays in order. */
  lemma {:induction false} RunValid(top: nat, hs: seq<Heap>, steps: seq<Step>, i: nat)
    requires Run(top, hs, steps) && i <= |steps|
    ensures Valid(hs[i])
  {
    hide Malloc, Free;
    if i == 0 {
      FreshValid(top);
    } else {
      RunValid(top, hs, steps, i - 1);
      assert Next(hs[i - 1], steps[i - 1], hs[i - 1 + 1]);
      match steps[i - 1]
      case DoMalloc(nbytes, outOfPages) => MallocOk(hs[i - 1], nbytes, outOfPages);
      case DoFree(a) => FreeOk(hs[i - 1], a);
      case OtherSbrk(units) =>
    }
  }
}
