/**
`umalloc.c` as it works: a circular list threaded through the headers of the free blocks.
*/
module UmallocKernel {
  import opened Base
  import opened Umalloc

  function Succ(free: seq<Chunk>, i: nat): nat
    requires i < |free|
  {
    if i + 1 < |free| then i + 1 else 0
  }

  /** The header of free block `i` gives its size and leads to the next, the last one back to the first. */
  ghost predicate Header(ptr: map<nat, nat>, size: map<nat, nat>, free: seq<Chunk>, i: nat) {
    && i < |free| && free[i].addr in ptr && free[i].addr in size
    && ptr[free[i].addr] == free[Succ(free, i)].addr && size[free[i].addr] == free[i].size
  }

  ghost predicate Strung(ptr: map<nat, nat>, size: map<nat, nat>, free: seq<Chunk>) {
    forall i :: 0 <= i < |free| ==> Header(ptr, size, free, i)
  }

  ghost predicate LiveHeaders(size: map<nat, nat>, live: map<nat, nat>) {
    forall a :: a in live ==> a in size && size[a] == live[a]
  }

  /** The stores of `free` once it has found the block `p` below `bp`. */
  function Freed(ptr: map<nat, nat>, size: map<nat, nat>, p: nat, bp: nat): (map<nat, nat>, map<nat, nat>)
    requires p in ptr && p in size && bp in size && ptr[p] in ptr && ptr[p] in size && p != bp
  {
    var joins := bp + size[bp] == ptr[p];
    var size1 := if joins then size[bp := size[bp] + size[ptr[p]]] else size;
    var ptr1 := ptr[bp := if joins then ptr[ptr[p]] else ptr[p]];
    if p + size[p] == bp then (ptr1[p := ptr1[bp]], size1[p := size1[p] + size1[bp]])
    else (ptr1[p := bp], size1)
  }

  lemma {:induction false} FreedStrung(ptr: map<nat, nat>, size: map<nat, nat>, free: seq<Chunk>, k: nat, c: Chunk)
    requires Ordered(free) && Based(free) && FitsAt(free, k, c) && Strung(ptr, size, free)
    requires c.addr in size && size[c.addr] == c.size
    ensures var p := free[k - 1].addr;
      && p in ptr && p in size && ptr[p] in ptr && ptr[p] in size && p != c.addr
      && var (ptr1, size1) := Freed(ptr, size, p, c.addr); Strung(ptr1, size1, Insert(free, k, c))
  {
    var p := free[k - 1].addr;
    assert Header(ptr, size, free, k - 1);
    assert Header(ptr, size, free, Succ(free, k - 1));
    var (ptr1, size1) := Freed(ptr, size, p, c.addr);
    var r := Insert(free, k, c);
    forall i | 0 <= i < |r| ensures Header(ptr1, size1, r, i) {
      FreedHeader(ptr, size, free, k, c, i);
    }
  }

  predicate JoinsPrev(free: seq<Chunk>, k: nat, c: Chunk)
    requires 1 <= k <= |free|
  {
    free[k - 1].addr + free[k - 1].size == c.addr
  }

  predicate JoinsNext(free: seq<Chunk>, k: nat, c: Chunk) { k < |free| && c.addr + c.size == free[k].addr }

  /** The block with what it is joined with above it. */
  function Joined(free: seq<Chunk>, k: nat, c: Chunk): Chunk {
    if JoinsNext(free, k, c) then c.(size := c.size + free[k].size) else c
  }

  /** Which old block stands at position `i` above the insertion. */
  function Shifted(free: seq<Chunk>, k: nat, c: Chunk, i: int): int
    requires 1 <= k <= |free|
  {
    i - (if JoinsPrev(free, k, c) then 0 else 1) + (if JoinsNext(free, k, c) then 1 else 0)
  }

  lemma InsertAt(free: seq<Chunk>, k: nat, c: Chunk, i: nat)
    requires 1 <= k <= |free| && i < |Insert(free, k, c)|
    ensures Shifted(free, k, c, |Insert(free, k, c)|) == |free|
    ensures var r := Insert(free, k, c);
      if i < k - 1 then r[i] == free[i]
      else if i == k - 1 then r[i] == free[i].(size := free[i].size + if JoinsPrev(free, k, c) then Joined(free, k, c).size else 0)
      else if i == k && !JoinsPrev(free, k, c) then r[i] == Joined(free, k, c)
      else 0 <= Shifted(free, k, c, i) < |free| && r[i] == free[Shifted(free, k, c, i)]
  {
  }

  ghost predicate Insertable(ptr: map<nat, nat>, size: map<nat, nat>, free: seq<Chunk>, k: nat, c: Chunk) {
    && Ordered(free) && Based(free) && FitsAt(free, k, c) && Strung(ptr, size, free)
    && c.addr in size && size[c.addr] == c.size
    && var p := free[k - 1].addr; p in ptr && p in size && ptr[p] in ptr && ptr[p] in size && p != c.addr
  }

  /** The block itself and the one below it. */
  lemma FreedNear(ptr: map<nat, nat>, size: map<nat, nat>, free: seq<Chunk>, k: nat, c: Chunk, i: nat)
    requires Insertable(ptr, size, free, k, c) && i < |Insert(free, k, c)|
    requires i == k - 1 || (i == k && !JoinsPrev(free, k, c))
    ensures var (ptr1, size1) := Freed(ptr, size, free[k - 1].addr, c.addr); Header(ptr1, size1, Insert(free, k, c), i)
  {
    hide Insert;
    InsertAt(free, k, c, i);
    InsertAt(free, k, c, Succ(Insert(free, k, c), i));
    assert Header(ptr, size, free, k - 1);
    if k < |free| { assert Header(ptr, size, free, k); }
  }

  /** All other blocks keep their headers. */
  lemma FreedFar(ptr: map<nat, nat>, size: map<nat, nat>, free: seq<Chunk>, k: nat, c: Chunk, i: nat)
    requires Insertable(ptr, size, free, k, c) && i < |Insert(free, k, c)|
    requires !(i == k - 1 || (i == k && !JoinsPrev(free, k, c)))
    ensures var (ptr1, size1) := Freed(ptr, size, free[k - 1].addr, c.addr); Header(ptr1, size1, Insert(free, k, c), i)
  {
    hide Insert;
    InsertAt(free, k, c, i);
    InsertAt(free, k, c, Succ(Insert(free, k, c), i));
    var m := if i < k - 1 then i else Shifted(free, k, c, i);
    assert Header(ptr, size, free, m);
    assert free[m].addr != free[k - 1].addr && free[m].addr != c.addr;
  }

  lemma FreedHeader(ptr: map<nat, nat>, size: map<nat, nat>, free: seq<Chunk>, k: nat, c: Chunk, i: nat)
    requires Insertable(ptr, size, free, k, c) && i < |Insert(free, k, c)|
    ensures var (ptr1, size1) := Freed(ptr, size, free[k - 1].addr, c.addr); Header(ptr1, size1, Insert(free, k, c), i)
  {
    hide Insert, Header;
    if i == k - 1 || (i == k && !JoinsPrev(free, k, c)) {
      FreedNear(ptr, size, free, k, c, i);
    } else {
      FreedFar(ptr, size, free, k, c, i);
    }
  }

  /** The stores of `malloc` once it has found block `p`, after `prevp`, of at least `n` units. */
  function Cut(ptr: map<nat, nat>, size: map<nat, nat>, prevp: nat, p: nat, n: nat): (map<nat, nat>, map<nat, nat>)
    requires p in ptr && p in size && n <= size[p]
  {
    if size[p] == n then (ptr[prevp := ptr[p]], size)
    else (ptr, size[p := size[p] - n][p + size[p] - n := n])
  }

  ghost predicate Cuttable(ptr: map<nat, nat>, size: map<nat, nat>, free: seq<Chunk>, i: nat, n: nat) {
    && Ordered(free) && Based(free) && Strung(ptr, size, free) && 1 <= i < |free| && 0 < n <= free[i].size
    && Header(ptr, size, free, i) && Header(ptr, size, free, i - 1)
  }

  lemma Starts(free: seq<Chunk>, i: nat, j: nat)
    requires Ordered(free) && i < |free| && j < |free| && i != j
    ensures free[i].addr != free[j].addr
  {
  }

  lemma CutWhole(ptr: map<nat, nat>, size: map<nat, nat>, free: seq<Chunk>, i: nat, j: nat)
    requires i < |free| && Cuttable(ptr, size, free, i, free[i].size) && j < |free| - 1
    ensures Header(ptr[free[i - 1].addr := ptr[free[i].addr]], size, free[..i] + free[i + 1..], j)
  {
    hide Ordered;
    var r := free[..i] + free[i + 1..];
    var m := if i <= j then j + 1 else j;
    assert Header(ptr, size, free, m);
    Starts(free, m, i);
    if m != i - 1 { Starts(free, m, i - 1); }
    var s := Succ(r, j);
    assert r[s] == if i <= s then free[s + 1] else free[s];
  }

  lemma CutPart(ptr: map<nat, nat>, size: map<nat, nat>, free: seq<Chunk>, i: nat, n: nat, j: nat)
    requires Cuttable(ptr, size, free, i, n) && n < free[i].size && j < |free|
    ensures var c := free[i];
      Header(ptr, size[c.addr := c.size - n][c.addr + c.size - n := n], free[i := c.(size := c.size - n)], j)
  {
    assert Header(ptr, size, free, j);
    assert free[j].addr != free[i].addr + free[i].size - n;
    assert j != i ==> free[j].addr != free[i].addr;
  }

  lemma CutHeader(ptr: map<nat, nat>, size: map<nat, nat>, free: seq<Chunk>, i: nat, n: nat, j: nat)
    requires Cuttable(ptr, size, free, i, n) && j < |Take(free, i, n)|
    ensures var (ptr1, size1) := Cut(ptr, size, free[i - 1].addr, free[i].addr, n); Header(ptr1, size1, Take(free, i, n), j)
  {
    hide Ordered;
    if free[i].size == n { CutWhole(ptr, size, free, i, j); } else { CutPart(ptr, size, free, i, n, j); }
  }

  lemma CutStrung(ptr: map<nat, nat>, size: map<nat, nat>, free: seq<Chunk>, i: nat, n: nat)
    requires Ordered(free) && Based(free) && Strung(ptr, size, free) && 1 <= i < |free| && 0 < n <= free[i].size
    ensures Header(ptr, size, free, i) && Header(ptr, size, free, i - 1)
    ensures var (ptr1, size1) := Cut(ptr, size, free[i - 1].addr, free[i].addr, n);
      && Strung(ptr1, size1, Take(free, i, n))
      && var c := Taken(free[i], n); c.addr in size1 && size1[c.addr] == n
  {
    assert Header(ptr, size, free, i) && Header(ptr, size, free, i - 1);
    var (ptr1, size1) := Cut(ptr, size, free[i - 1].addr, free[i].addr, n);
    forall j | 0 <= j < |Take(free, i, n)| ensures Header(ptr1, size1, Take(free, i, n), j) {
      CutHeader(ptr, size, free, i, n, j);
    }
  }

  /** No live block starts where a free one does. */
  lemma FreeNotLive(h: Heap, i: nat)
    requires Valid(h) && i < |h.free|
    ensures h.free[i].addr !in h.live
  {
    var a := h.free[i].addr;
    if a in h.live { LiveAbove(h, a); }
  }

  lemma AroundNext(free: seq<Chunk>, at: nat, d: nat)
    requires Ordered(free) && at < |free| && d < |free|
    ensures Around(free, at, d + 1) == Succ(free, Around(free, at, d))
    ensures free[Around(free, at, d)].addr == free[at].addr <==> d == 0
  {
  }

  /** How many links lead from position `j` to position `k` of a ring of `len`. */
  function Links(j: nat, k: nat, len: nat): int { if j <= k then k - j else k + len - j }

  class Allocator {
    /** The headers in memory, by the address of their block. */
    var ptr: map<nat, nat>
    var size: map<nat, nat>
    /** 0 until the first call of `malloc`. */
    var freep: nat
    const base: nat
    var top: nat

    ghost var free: seq<Chunk>
    ghost var at: nat
    ghost var live: map<nat, nat>
    ghost var granted: set<nat>

    ghost function View(): Heap
      reads this
    {
      Heap(free, at, live, granted, top)
    }

    ghost predicate Ok()
      reads this
    {
      Whole(OkFacts())
    }

    ghost predicate OkFacts()
      reads this
    {
      && Valid(View()) && free[0].addr == base && LiveHeaders(size, live)
      && if freep == 0 then free == [Chunk(base, 0)] && live == map[] else Strung(ptr, size, free) && freep == free[at].addr
    }

    constructor (base: nat, top: nat)
      requires 0 < base < top && HEADER * top < KERNBASE
      ensures Ok() && View() == Heap([Chunk(base, 0)], 0, map[], {}, top)
    {
      ptr, size, freep, this.base, this.top := map[], map[], 0, base, top;
      free, at, live, granted := [Chunk(base, 0)], 0, map[], {};
    }

    /** The first call of `malloc` sets up `base` as the only block of the list. */
    method Init()
      requires Ok() && freep == 0
      modifies this`ptr, this`size, this`freep
      ensures Ok() && freep != 0
    {
      ptr, freep := ptr[base := base], base;
      size := size[base := 0];
    }

    /** The search of `free` for the block below `bp`. */
    method FindBelow(bp: nat) returns (p: nat)
      requires Ok() && freep != 0 && 0 < Below(free, bp) && (forall i :: 0 <= i < |free| ==> free[i].addr != bp)
      ensures p == free[Below(free, bp) - 1].addr && p in ptr
    {
      hide LiveApart, FreeApart, Accounted;
      p := freep;
      ghost var j, k := at, Below(free, bp);
      assert Header(ptr, size, free, j);
      while !(bp > p && bp < ptr[p])
        invariant 0 <= j < |free| && p == free[j].addr && p in ptr && Header(ptr, size, free, j)
        decreases Links(j, k - 1, |free|)
      {
        if p >= ptr[p] && (bp > p || bp < ptr[p]) { break; }
        p := ptr[p];
        j := Succ(free, j);
        assert Header(ptr, size, free, j);
      }
    }

    /** The stores of `free`. */
    method Thread(p: nat, bp: nat)
      requires p in ptr && p in size && bp in size && ptr[p] in ptr && ptr[p] in size && p != bp
      modifies this`ptr, this`size
      ensures (ptr, size) == Freed(old(ptr), old(size), p, bp)
    {
      if bp + size[bp] == ptr[p] {
        size := size[bp := size[bp] + size[ptr[p]]];
        ptr := ptr[bp := ptr[ptr[p]]];
      } else {
        ptr := ptr[bp := ptr[p]];
      }
      if p + size[p] == bp {
        size := size[p := size[p] + size[bp]];
        ptr := ptr[p := ptr[bp]];
      } else {
        ptr := ptr[p := bp];
      }
    }

    /** `free`, as far as the list goes. */
    method Put(bp: nat)
      requires Ok() && freep != 0 && bp in size && FitsAt(free, Below(free, bp), Chunk(bp, size[bp]))
      modifies this`ptr, this`size, this`freep, this`free, this`at
      ensures var k, c := old(Below(free, bp)), Chunk(bp, old(size[bp]));
        && free == Insert(old(free), k, c) && at == k - 1 && at < |free| && freep == free[at].addr && freep != 0
      ensures Strung(ptr, size, free) && LiveHeaders(size, live - {bp}) && free[0].addr == base
    {
      hide LiveApart, FreeApart, Accounted, Insert, Freed, Header;
      ghost var k, c := Below(free, bp), Chunk(bp, size[bp]);
      NotAStart(free, k, c);
      var p := FindBelow(bp);
      FreedStrung(ptr, size, free, k, c);
      FreedLive(View(), k - 1, ptr, size, bp);
      InsertOk(free, k, c);
      Thread(p, bp);
      freep := p;
      free, at := Insert(free, k, c), k - 1;
    }

    /** `free` of a block that was handed out. */
    method Free(bp: nat)
      requires Ok() && bp in live
      modifies this`ptr, this`size, this`freep, this`free, this`at, this`live
      ensures Ok() && 0 < Below(old(free), bp) && View() == Umalloc.Free(old(View()), bp)
    {
      hide LiveApart, FreeApart, Accounted, Insert, Ordered, Based;
      LiveAbove(View(), bp);
      FreeOk(View(), bp);
      Put(bp);
      live := live - {bp};
    }

    /** `morecore`; the pages that `sbrk` would need may be lacking. */
    method Morecore(nunits: nat, outOfPages: bool) returns (ok: bool)
      requires Ok() && freep != 0 && 0 < nunits && nunits * HEADER < KERNBASE
      modifies this`ptr, this`size, this`freep, this`top, this`free, this`at, this`granted
      ensures Ok() && freep != 0
      ensures Umalloc.Morecore(old(View()), nunits, outOfPages) == if ok then Some(View()) else None
      ensures !ok ==> View() == old(View())
    {
      hide LiveApart, FreeApart, Accounted, Insert, Ordered, Based, Sbrk, Request, Span;
      var nu := if nunits < MORE then MORE else nunits;
      MorecoreIs(View(), nunits, outOfPages);
      SbrkGrows(top, nu, outOfPages);
      var moved := Sbrk(top, Request(nu), outOfPages);
      if moved.None? { return false; }
      GrownOk(View(), nu);
      NewAtTop(View(), nu, top + nu, ptr, size);
      TopFits(View(), Chunk(top, nu));
      var hp := top;
      top := moved.value;
      size := size[hp := nu];
      Put(hp);
      granted := granted + Span(hp, nu);
      assert live - {hp} == live;
      return true;
    }

    /** The end of `malloc`: block `i` of the list, after block `i - 1`, gives what is needed. */
    method CutOut(prevp: nat, p: nat, nunits: nat, ghost i: nat) returns (block: nat)
      requires Ok() && freep != 0 && 1 <= i < |free| && p == free[i].addr && prevp == free[i - 1].addr
      requires p in size && 0 < nunits <= size[p] == free[i].size
      modifies this`ptr, this`size, this`freep, this`free, this`at, this`live
      ensures Ok() && freep != 0 && View() == Alloc(old(View()), i, nunits)
      ensures block == Taken(old(free[i]), nunits).addr
    {
      hide LiveApart, FreeApart, Accounted, Ordered, Based, Header;
      AllocOk(View(), i, nunits);
      CutFacts(View(), ptr, size, i, nunits);
      block := p;
      if size[p] == nunits {
        ptr := ptr[prevp := ptr[p]];
      } else {
        size := size[p := size[p] - nunits];
        block := block + size[block];
        size := size[block := nunits];
      }
      freep := prevp;
      live := live[block := nunits];
      free, at := Take(free, i, nunits), i - 1;
    }

    /** `malloc` of a request that can be relied on: it asks for more memory at most once, as the
        termination of its loop shows. */
    method Malloc(nbytes: nat, outOfPages: bool) returns (r: Option<nat>)
      requires Ok() && nbytes <= LARGEST
      modifies this
      ensures Ok() && Umalloc.Malloc(old(View()), nbytes, outOfPages) == Result(View(), r)
    {
      hide LiveApart, FreeApart, Accounted, Ordered, Based, Header, Find, Alloc, Umalloc.Morecore, Strung;
      var nunits := UnitsFor(nbytes);
      UnitsOk(nbytes);
      if freep == 0 { Init(); }
      SearchStart(View(), nunits, ptr, size);
      var prevp := freep;
      var p := ptr[prevp];
      ghost var d, grown := 1, false;
      while true
        invariant Ok() && freep != 0 && Searching(View(), nunits, d, prevp, p)
        invariant if grown then Grew(old(View()), nunits, outOfPages, View()) else View() == old(View())
        decreases !grown, |free| - d
      {
        SearchOn(View(), nunits, d, prevp, p, ptr, size);
        if size[p] >= nunits {
          var block := CutOut(prevp, p, nunits, Around(free, at, d));
          return Some(block);
        }
        if p == freep {
          if grown { GrewServes(old(View()), nunits, outOfPages, View()); }
          var ok := Morecore(nunits, outOfPages);
          if !ok { return None; }
          grown, d := true, 0;
          p := freep;
          SearchStart(View(), nunits, ptr, size);
        }
        prevp := p;
        p := ptr[p];
        d := d + 1;
      }
    }
  }

  /** Nothing was found, and `morecore` made `h1` of `h`. */
  ghost predicate Grew(h: Heap, n: nat, outOfPages: bool, h1: Heap) {
    && h.at < |h.free| && Find(h.free, h.at, n, 1) == |h.free| + 1
    && Umalloc.Morecore(h, n, outOfPages) == Some(h1)
  }

  lemma GrewServes(h: Heap, n: nat, outOfPages: bool, h1: Heap)
    requires Valid(h) && 0 < n && Grew(h, n, outOfPages, h1)
    ensures h1.at < |h1.free| && Find(h1.free, h1.at, n, 1) <= |h1.free|
  {
    hide Insert, Sbrk, Request, Find;
    MorecoreIs(h, n, outOfPages);
    MorecoreServes(h, Max(n, MORE), h1.top, n);
  }

  /** Where the search stands: at the `d`th block from `freep`, those before it being too small. */
  ghost predicate Searching(h: Heap, n: nat, d: nat, prevp: nat, p: nat) {
    && h.at < |h.free| && 1 <= d <= |h.free|
    && p == h.free[Around(h.free, h.at, d)].addr && prevp == h.free[Around(h.free, h.at, d - 1)].addr
    && forall e :: 1 <= e < d ==> h.free[Around(h.free, h.at, e)].size < n
  }

  lemma SearchStart(h: Heap, n: nat, ptr: map<nat, nat>, size: map<nat, nat>)
    requires Valid(h) && Strung(ptr, size, h.free)
    ensures h.free[h.at].addr in ptr && Searching(h, n, 1, h.free[h.at].addr, ptr[h.free[h.at].addr])
  {
    assert Header(ptr, size, h.free, h.at);
  }

  lemma SearchOn(h: Heap, n: nat, d: nat, prevp: nat, p: nat, ptr: map<nat, nat>, size: map<nat, nat>)
    requires Valid(h) && Strung(ptr, size, h.free) && Searching(h, n, d, prevp, p) && 0 < n
    ensures p in ptr && p in size && size[p] == h.free[Around(h.free, h.at, d)].size
    ensures p == h.free[h.at].addr <==> d == |h.free|
    ensures size[p] < n && d < |h.free| ==> Searching(h, n, d + 1, p, ptr[p])
    ensures size[p] < n && d == |h.free| ==> Find(h.free, h.at, n, 1) == |h.free| + 1
    ensures n <= size[p] ==> Find(h.free, h.at, n, 1) == d && 1 <= Around(h.free, h.at, d)
    ensures n <= size[p] ==> Around(h.free, h.at, d - 1) == Around(h.free, h.at, d) - 1
  {
    assert Header(ptr, size, h.free, Around(h.free, h.at, d));
    if d < |h.free| { AroundNext(h.free, h.at, d); }
    AroundNext(h.free, h.at, d - 1);
  }

  lemma CutFacts(h: Heap, ptr: map<nat, nat>, size: map<nat, nat>, i: nat, n: nat)
    requires Valid(h) && Strung(ptr, size, h.free) && LiveHeaders(size, h.live) && 1 <= i < |h.free| && 0 < n <= h.free[i].size
    ensures var p, prevp := h.free[i].addr, h.free[i - 1].addr;
      && p in ptr && p in size && size[p] == h.free[i].size && prevp != 0
      && var (ptr1, size1) := Cut(ptr, size, prevp, p, n);
      && Strung(ptr1, size1, Take(h.free, i, n)) && LiveHeaders(size1, h.live[Taken(h.free[i], n).addr := n])
      && Take(h.free, i, n)[0] == h.free[0] && i - 1 < |Take(h.free, i, n)| && Take(h.free, i, n)[i - 1].addr == prevp
  {
    CutStrung(ptr, size, h.free, i, n);
    FreeNotLive(h, i);
    AllocOk(h, i, n);
  }

  lemma NewAtTop(h: Heap, nu: nat, top: nat, ptr: map<nat, nat>, size: map<nat, nat>)
    requires Valid(h) && 0 < nu && h.top <= top && HEADER * top < KERNBASE
    requires Strung(ptr, size, h.free) && LiveHeaders(size, h.live)
    ensures Valid(h.(top := top)) && FitsAt(h.free, Below(h.free, h.top), Chunk(h.top, nu)) && h.top !in h.live
    ensures Strung(ptr, size[h.top := nu], h.free) && LiveHeaders(size[h.top := nu], h.live)
  {
    TopFits(h, Chunk(h.top, nu));
    NotAStart(h.free, |h.free|, Chunk(h.top, nu));
    var size1 := size[h.top := nu];
    forall i | 0 <= i < |h.free| ensures Header(ptr, size1, h.free, i) {
      assert Header(ptr, size, h.free, i);
    }
  }

  lemma NotAStart(free: seq<Chunk>, k: nat, c: Chunk)
    requires Ordered(free) && k == Below(free, c.addr) && FitsAt(free, k, c) && Based(free)
    ensures forall i :: 0 <= i < |free| ==> free[i].addr != c.addr
  {
    forall i | 0 <= i < |free| ensures free[i].addr != c.addr {
      if k < i { assert free[k].addr + free[k].size < free[i].addr; }
    }
  }

  lemma FreedLive(h: Heap, i: nat, ptr: map<nat, nat>, size: map<nat, nat>, bp: nat)
    requires Valid(h) && i < |h.free| && LiveHeaders(size, h.live)
    requires var p := h.free[i].addr; p in ptr && p in size && bp in size && ptr[p] in ptr && ptr[p] in size && p != bp
    ensures LiveHeaders(Freed(ptr, size, h.free[i].addr, bp).1, h.live - {bp})
  {
    FreeNotLive(h, i);
  }
}
