/**
The buffer cache of `bio.c` over the disk of `memide.c`: what its calls do to the buffers and to
their order of use, and that this is what the journal takes a cache to be.
*/
module BufferCache {
  import opened Base
  import opened Journal

  const ROOTDEV := 1

  datatype Buf = Buf(dev: nat, blockno: nat, valid: bool, dirty: bool, refcnt: nat, data: Block)

  /** The buffers, their numbers from the most to the least recently released, and the disk. */
  datatype Cache = Cache(bufs: seq<Buf>, order: seq<nat>, disk: seq<Block>)

  predicate Holds(b: Buf, dev: nat, blockno: nat) { b.dev == dev && b.blockno == blockno }

  /** What `bget` may recycle: a dirty buffer is in use even if nobody holds it. */
  predicate Unused(b: Buf) { b.refcnt == 0 && !b.dirty }

  /** Every buffer is in the ring, once. */
  predicate Ordered(bufs: seq<Buf>, order: seq<nat>) {
    && |order| == |bufs| && Distinct(order) && forall k :: 0 <= k < |order| ==> order[k] < |bufs|
  }

  predicate UniqueBlocks(bufs: seq<Buf>) {
    forall i, j :: 0 <= i < j < |bufs| && bufs[i].dev == bufs[j].dev == ROOTDEV ==> bufs[i].blockno != bufs[j].blockno
  }

  /** What a buffer is to the disk: dirty ones hold data to be written, clean ones what was read. */
  predicate BufOk(b: Buf, disk: seq<Block>) {
    && (b.dirty ==> b.valid)
    && (b.valid ==> b.dev == ROOTDEV && b.blockno < |disk| && (!b.dirty ==> b.data == disk[b.blockno]))
  }

  ghost predicate Sound(c: Cache) { Whole(SoundFacts(c)) }

  ghost predicate SoundFacts(c: Cache) {
    && Ordered(c.bufs, c.order) && UniqueBlocks(c.bufs)
    && forall i :: 0 <= i < |c.bufs| ==> BufOk(c.bufs[i], c.disk)
  }

  // ---------- the two searches of bget ----------

  /** The position from which the forward search of `bget` takes a buffer for the block. */
  function Hit(bufs: seq<Buf>, order: seq<nat>, dev: nat, blockno: nat): (k: nat)
    requires forall k :: 0 <= k < |order| ==> order[k] < |bufs|
    ensures k <= |order| && (k < |order| ==> Holds(bufs[order[k]], dev, blockno))
    ensures forall j :: 0 <= j < k ==> !Holds(bufs[order[j]], dev, blockno)
  {
    if order == [] || Holds(bufs[order[0]], dev, blockno) then 0 else 1 + Hit(bufs, order[1..], dev, blockno)
  }

  /** One past the position from which the backward search takes a buffer to recycle, or 0. */
  function Victim(bufs: seq<Buf>, order: seq<nat>): (k: nat)
    requires forall k :: 0 <= k < |order| ==> order[k] < |bufs|
    ensures k <= |order| && (0 < k ==> Unused(bufs[order[k - 1]]))
    ensures forall j :: k <= j < |order| ==> !Unused(bufs[order[j]])
  {
    var n := |order|;
    if n == 0 || Unused(bufs[order[n - 1]]) then n else Victim(bufs, order[..n - 1])
  }

  // ---------- the calls ----------

  datatype Result = Got(c: Cache, b: nat) | NoBuffers

  function Bget(c: Cache, dev: nat, blockno: nat): Result
    requires Ordered(c.bufs, c.order)
  {
    var h, v := Hit(c.bufs, c.order, dev, blockno), Victim(c.bufs, c.order);
    if h < |c.order| then
      var b := c.order[h];
      Got(c.(bufs := c.bufs[b := c.bufs[b].(refcnt := c.bufs[b].refcnt + 1)]), b)
    else if 0 < v then
      var b := c.order[v - 1];
      Got(c.(bufs := c.bufs[b := Buf(dev, blockno, false, false, 1, c.bufs[b].data)]), b)
    else NoBuffers
  }

  /** `iderw` of a buffer that is not valid: it is filled. */
  function Fill(c: Cache, b: nat): Cache
    requires b < |c.bufs| && c.bufs[b].blockno < |c.disk|
  {
    if c.bufs[b].valid then c
    else c.(bufs := c.bufs[b := c.bufs[b].(valid := true, data := c.disk[c.bufs[b].blockno])])
  }

  /** The holder of a buffer changes its data, and `log_write` pins it. */
  function Pin(c: Cache, b: nat, data: Block): Cache
    requires b < |c.bufs|
  {
    c.(bufs := c.bufs[b := c.bufs[b].(dirty := true, data := data)])
  }

  /** The holder of a buffer changes its data and calls `bwrite`. */
  function Store(c: Cache, b: nat, data: Block): Cache
    requires b < |c.bufs| && c.bufs[b].blockno < |c.disk|
  {
    c.(bufs := c.bufs[b := c.bufs[b].(valid := true, dirty := false, data := data)],
       disk := c.disk[c.bufs[b].blockno := data])
  }

  function Release(c: Cache, b: nat): Cache
    requires b < |c.bufs| && 0 < c.bufs[b].refcnt
  {
    var c1 := c.(bufs := c.bufs[b := c.bufs[b].(refcnt := c.bufs[b].refcnt - 1)]);
    if c1.bufs[b].refcnt == 0 then c1.(order := [b] + Without(c.order, b)) else c1
  }

  // ---------- every call keeps the cache in order ----------

  /** The ring misses no buffer. */
  lemma RingHasAll(c: Cache, b: nat)
    requires Ordered(c.bufs, c.order) && b < |c.bufs|
    ensures b in c.order
  {
    if b !in c.order {
      DistinctCard(c.order);
      var all := Members(c.order) + {b};
      assert |all| == |Members(c.order)| + 1;
      Pigeonhole(all, |c.bufs|);
    }
  }

  /** `bget` panics exactly when the block is in no buffer and every buffer is held or dirty. */
  lemma NoBuffersExactly(c: Cache, dev: nat, blockno: nat)
    requires Ordered(c.bufs, c.order)
    ensures Bget(c, dev, blockno) == NoBuffers <==>
      forall b :: 0 <= b < |c.bufs| ==> !Holds(c.bufs[b], dev, blockno) && !Unused(c.bufs[b])
  {
    if Bget(c, dev, blockno) == NoBuffers {
      forall b | 0 <= b < |c.bufs| ensures !Holds(c.bufs[b], dev, blockno) && !Unused(c.bufs[b]) {
        RingHasAll(c, b);
        var k :| 0 <= k < |c.order| && c.order[k] == b;
      }
    }
  }

  /** Without a buffer for the block, no buffer anywhere holds it. */
  lemma MissMeansNone(c: Cache, dev: nat, blockno: nat, b: nat)
    requires Ordered(c.bufs, c.order) && Hit(c.bufs, c.order, dev, blockno) == |c.order| && b < |c.bufs|
    ensures !Holds(c.bufs[b], dev, blockno)
  {
    RingHasAll(c, b);
    var k :| 0 <= k < |c.order| && c.order[k] == b;
  }

  lemma BgetOk(c: Cache, dev: nat, blockno: nat)
    requires Sound(c) && Bget(c, dev, blockno).Got?
    ensures var r := Bget(c, dev, blockno);
      && Sound(r.c) && r.b < |c.bufs| && Holds(r.c.bufs[r.b], dev, blockno) && 0 < r.c.bufs[r.b].refcnt
      && (!Holds(c.bufs[r.b], dev, blockno) ==> c.bufs[r.b].refcnt == 0 && !c.bufs[r.b].dirty)
  {
    var r := Bget(c, dev, blockno);
    if Hit(c.bufs, c.order, dev, blockno) == |c.order| {
      forall j | 0 <= j < |c.bufs| ensures !Holds(c.bufs[j], dev, blockno) { MissMeansNone(c, dev, blockno, j); }
    }
    assert UniqueBlocks(r.c.bufs);
    assert forall i :: 0 <= i < |c.bufs| ==> BufOk(r.c.bufs[i], c.disk);
  }

  lemma FillOk(c: Cache, b: nat)
    requires Sound(c) && b < |c.bufs| && c.bufs[b].dev == ROOTDEV && c.bufs[b].blockno < |c.disk|
    ensures Sound(Fill(c, b)) && Fill(c, b).bufs[b].valid
  {
    assert UniqueBlocks(Fill(c, b).bufs);
    assert forall i :: 0 <= i < |c.bufs| ==> BufOk(Fill(c, b).bufs[i], c.disk);
  }

  lemma PinOk(c: Cache, b: nat, data: Block)
    requires Sound(c) && b < |c.bufs| && c.bufs[b].valid
    ensures Sound(Pin(c, b, data))
  {
    assert UniqueBlocks(Pin(c, b, data).bufs);
    assert forall i :: 0 <= i < |c.bufs| ==> BufOk(Pin(c, b, data).bufs[i], c.disk);
  }

  lemma StoreOk(c: Cache, b: nat, data: Block)
    requires Sound(c) && b < |c.bufs| && c.bufs[b].dev == ROOTDEV && c.bufs[b].blockno < |c.disk|
    ensures Sound(Store(c, b, data))
  {
    var d := Store(c, b, data);
    assert UniqueBlocks(d.bufs);
    forall i | 0 <= i < |c.bufs| ensures BufOk(d.bufs[i], d.disk) {
      assert BufOk(c.bufs[i], c.disk);
    }
  }

  /** Where the entries of a ring stand once entry `k` is moved to the front. */
  function Before(k: nat, j: nat): nat { if j == 0 then k else if j <= k then j - 1 else j }

  lemma FrontAt(order: seq<nat>, r: seq<nat>, k: nat, j: nat)
    requires k < |order| && r == [order[k]] + (order[..k] + order[k + 1..]) && j < |r|
    ensures |r| == |order| && Before(k, j) < |order| && r[j] == order[Before(k, j)]
  {
  }

  lemma FrontDistinct(order: seq<nat>, r: seq<nat>, k: nat)
    requires Distinct(order) && k < |order| && r == [order[k]] + (order[..k] + order[k + 1..])
    ensures Distinct(r) && forall j :: 0 <= j < |r| ==> r[j] in order
  {
    forall i, j | 0 <= i < j < |r| ensures r[i] != r[j] {
      FrontAt(order, r, k, i);
      FrontAt(order, r, k, j);
      assert Before(k, i) != Before(k, j);
    }
    forall j | 0 <= j < |r| ensures r[j] in order { FrontAt(order, r, k, j); }
  }

  lemma FrontOrdered(bufs: seq<Buf>, order: seq<nat>, b: nat)
    requires Ordered(bufs, order) && b in order
    ensures Ordered(bufs, [b] + Without(order, b))
  {
    hide Distinct, IndexOf, Without;
    var k := IndexOf(order, b);
    WithoutAt(order, b, k);
    FrontDistinct(order, [b] + (order[..k] + order[k + 1..]), k);
  }

  lemma ReleaseOk(c: Cache, b: nat)
    requires Sound(c) && b < |c.bufs| && 0 < c.bufs[b].refcnt
    ensures Sound(Release(c, b))
  {
    hide Ordered;
    var d := Release(c, b);
    assert UniqueBlocks(d.bufs);
    assert forall i :: 0 <= i < |c.bufs| ==> BufOk(d.bufs[i], d.disk);
    RingHasAll(c, b);
    FrontOrdered(c.bufs, c.order, b);
    SameOrdered(c.bufs, d.bufs, d.order);
  }

  lemma SameOrdered(bufs: seq<Buf>, bufs1: seq<Buf>, order: seq<nat>)
    requires |bufs| == |bufs1|
    ensures Ordered(bufs, order) <==> Ordered(bufs1, order)
  {
  }

  // ---------- the cache as the journal sees it ----------

  /** The buffer that holds valid contents of a disk block, or the number of buffers. */
  function Slot(bufs: seq<Buf>, blockno: nat): (k: nat)
    ensures k <= |bufs| && (k < |bufs| ==> bufs[k].valid && bufs[k].blockno == blockno)
    ensures forall j :: 0 <= j < k ==> !(bufs[j].valid && bufs[j].blockno == blockno)
  {
    if bufs == [] || (bufs[0].valid && bufs[0].blockno == blockno) then 0 else 1 + Slot(bufs[1..], blockno)
  }

  ghost function Contents(c: Cache): map<nat, Block> {
    map x | 0 <= x < |c.disk| && Slot(c.bufs, x) < |c.bufs| :: c.bufs[Slot(c.bufs, x)].data
  }

  ghost function Dirty(c: Cache): set<nat> {
    set x | 0 <= x < |c.disk| && Slot(c.bufs, x) < |c.bufs| && c.bufs[Slot(c.bufs, x)].dirty
  }

  lemma SlotIs(c: Cache, i: nat)
    requires Sound(c) && i < |c.bufs| && c.bufs[i].valid
    ensures c.bufs[i].blockno < |c.disk| && Slot(c.bufs, c.bufs[i].blockno) == i
  {
    assert BufOk(c.bufs[i], c.disk);
    var k := Slot(c.bufs, c.bufs[i].blockno);
    assert BufOk(c.bufs[k], c.disk);
  }

  /** A step that touches one buffer leaves the contents of all blocks but that buffer's alone. */
  lemma SlotElsewhere(c: Cache, d: Cache, b: nat, x: nat)
    requires Sound(c) && Sound(d) && |c.bufs| == |d.bufs| && b < |c.bufs|
    requires forall i :: 0 <= i < |c.bufs| && i != b ==> d.bufs[i] == c.bufs[i].(refcnt := d.bufs[i].refcnt)
    requires !(c.bufs[b].valid && c.bufs[b].blockno == x) && !(d.bufs[b].valid && d.bufs[b].blockno == x)
    ensures Slot(d.bufs, x) == Slot(c.bufs, x) && Slot(c.bufs, x) != b
  {
    var k, m := Slot(c.bufs, x), Slot(d.bufs, x);
    if k < |c.bufs| { SlotIs(d, k); }
    if m < |d.bufs| { SlotIs(c, m); }
  }

  /** The disk, cache and dirty blocks of the journal are those of the buffers. */
  ghost predicate Matches(c: Cache, s: State) { s.disk == c.disk && s.cache == Contents(c) && s.dirty == Dirty(c) }

  /** `d` differs from `c` in buffer `b`, which ends up valid, and in how often buffers are held. */
  ghost predicate OneChanged(c: Cache, d: Cache, b: nat) {
    && Sound(c) && Sound(d) && |c.bufs| == |d.bufs| && |c.disk| == |d.disk| && b < |c.bufs| && d.bufs[b].valid
    && forall i :: 0 <= i < |c.bufs| && i != b ==> d.bufs[i] == c.bufs[i].(refcnt := d.bufs[i].refcnt)
  }

  ghost function Gone(b: Buf): set<nat> { if b.valid then {b.blockno} else {} }

  lemma BlockAfter(c: Cache, d: Cache, b: nat, x: nat)
    requires OneChanged(c, d, b)
    ensures d.bufs[b].blockno < |d.disk| && (Slot(d.bufs, x) == b <==> x == d.bufs[b].blockno)
    ensures x in Gone(c.bufs[b]) && x != d.bufs[b].blockno ==> Slot(d.bufs, x) == |d.bufs|
    ensures x !in Gone(c.bufs[b]) && x != d.bufs[b].blockno ==> Slot(d.bufs, x) == Slot(c.bufs, x) != b
  {
    SlotIs(d, b);
    if x != d.bufs[b].blockno {
      if x in Gone(c.bufs[b]) {
        SlotIs(c, b);
        var k := Slot(d.bufs, x);
        if k < |d.bufs| { SlotIs(c, k); }
      } else {
        SlotElsewhere(c, d, b, x);
      }
    }
  }

  lemma OneBuffer(c: Cache, d: Cache, b: nat)
    requires OneChanged(c, d, b)
    ensures Contents(d) == (Contents(c) - Gone(c.bufs[b]))[d.bufs[b].blockno := d.bufs[b].data]
    ensures Dirty(d) == (Dirty(c) - Gone(c.bufs[b]) - {d.bufs[b].blockno}) + (if d.bufs[b].dirty then {d.bufs[b].blockno} else {})
  {
    hide Sound, Gone, Slot;
    forall x: nat
      ensures d.bufs[b].blockno < |d.disk| && (Slot(d.bufs, x) == b <==> x == d.bufs[b].blockno)
      ensures x in Gone(c.bufs[b]) && x != d.bufs[b].blockno ==> Slot(d.bufs, x) == |d.bufs|
      ensures x !in Gone(c.bufs[b]) && x != d.bufs[b].blockno ==> Slot(d.bufs, x) == Slot(c.bufs, x) != b
    {
      BlockAfter(c, d, b, x);
    }
  }

  /** `bread`: `bget`, and `iderw` if the buffer is not valid. */
  function Bread(c: Cache, blockno: nat): Result
    requires Ordered(c.bufs, c.order) && blockno < |c.disk|
  {
    match Bget(c, ROOTDEV, blockno)
    case NoBuffers => NoBuffers
    case Got(c1, b) => Got(Fill(c1, b), b)
  }

  lemma BreadOk(c: Cache, blockno: nat)
    requires Sound(c) && blockno < |c.disk| && Bread(c, blockno).Got?
    ensures var r := Bread(c, blockno);
      && OneChanged(c, r.c, r.b) && r.c.disk == c.disk && r.c.order == c.order
      && r.c.bufs[r.b].blockno == blockno && 0 < r.c.bufs[r.b].refcnt
      && ((c.bufs[r.b].blockno == blockno && c.bufs[r.b].valid && r.c.bufs[r.b].dirty == c.bufs[r.b].dirty
          && r.c.bufs[r.b].data == c.bufs[r.b].data)
        || (Slot(c.bufs, blockno) == |c.bufs| && !c.bufs[r.b].dirty && !r.c.bufs[r.b].dirty
          && r.c.bufs[r.b].data == c.disk[blockno]))
  {
    BgetOk(c, ROOTDEV, blockno);
    var r := Bget(c, ROOTDEV, blockno);
    FillOk(r.c, r.b);
    var k := Slot(c.bufs, blockno);
    if k < |c.bufs| {
      assert BufOk(c.bufs[k], c.disk);
      if Hit(c.bufs, c.order, ROOTDEV, blockno) == |c.order| { MissMeansNone(c, ROOTDEV, blockno, k); }
      assert BufOk(c.bufs[r.b], c.disk);
    }
  }

  /** The block, if any, whose buffer a lookup recycles. */
  ghost function Recycled(c: Cache, blockno: nat): set<nat>
    requires Ordered(c.bufs, c.order) && blockno < |c.disk| && Bread(c, blockno).Got? && Bread(c, blockno).b < |c.bufs|
  {
    Gone(c.bufs[Bread(c, blockno).b]) - {blockno}
  }

  lemma UpdateAfterRemoval(m: map<nat, Block>, gone: set<nat>, x: nat, v: Block)
    ensures (m - gone)[x := v] == (m - (gone - {x}))[x := v]
  {
  }

  lemma KeyIs(c: Cache, i: nat)
    requires Sound(c) && i < |c.bufs| && c.bufs[i].valid
    ensures c.bufs[i].blockno in Contents(c) && Contents(c)[c.bufs[i].blockno] == c.bufs[i].data
    ensures c.bufs[i].blockno in Dirty(c) <==> c.bufs[i].dirty
  {
    SlotIs(c, i);
  }

  lemma BreadData(c: Cache, blockno: nat)
    requires Sound(c) && blockno < |c.disk| && Bread(c, blockno).Got?
    ensures var r := Bread(c, blockno);
      && r.b < |c.bufs| == |r.c.bufs| && r.c.disk == c.disk && Dirty(r.c) == Dirty(c)
      && r.c.bufs[r.b].data == (if blockno in Contents(c) then Contents(c)[blockno] else c.disk[blockno])
  {
    hide BufOk, UniqueBlocks, Distinct, Bread, Slot;
    BreadOk(c, blockno);
    var r := Bread(c, blockno);
    OneBuffer(c, r.c, r.b);
    assert Slot(c.bufs, blockno) == |c.bufs| ==> blockno !in Contents(c) && blockno !in Dirty(c);
    if c.bufs[r.b].valid { KeyIs(c, r.b); }
  }

  lemma BreadContents(c: Cache, blockno: nat)
    requires Sound(c) && blockno < |c.disk| && Bread(c, blockno).Got?
    ensures var r := Bread(c, blockno);
      && r.b < |c.bufs| == |r.c.bufs|
      && Recycled(c, blockno) <= Contents(c).Keys && Recycled(c, blockno) !! Dirty(c) + {blockno} && |Recycled(c, blockno)| <= 1
      && Contents(r.c) == (Contents(c) - Recycled(c, blockno))[blockno := r.c.bufs[r.b].data]
  {
    hide BufOk, UniqueBlocks, Distinct, Bread, Slot, Contents, Dirty;
    BreadOk(c, blockno);
    var r := Bread(c, blockno);
    OneBuffer(c, r.c, r.b);
    if c.bufs[r.b].valid { KeyIs(c, r.b); }
    UpdateAfterRemoval(Contents(c), Gone(c.bufs[r.b]), blockno, r.c.bufs[r.b].data);
  }

  /** A lookup gives what the journal calls the current contents of the block. To the journal it is
      a read, after the eviction of a block that is not dirty when a buffer in use was recycled. */
  lemma BreadRefines(g: Geometry, c: Cache, s: State, blockno: nat) returns (t: State, u: State)
    requires Sound(c) && Matches(c, s) && InRange(g, s) && blockno < |c.disk| && Bread(c, blockno).Got?
    ensures t == s || exists x :: x !in s.dirty && Next(g, s, Evict(x)) == Ok(t)
    ensures Next(g, t, Read(blockno)) == Ok(u)
    ensures var r := Bread(c, blockno);
      Matches(r.c, u) && r.b < |r.c.bufs| && r.c.bufs[r.b].data == Current(s, blockno)
  {
    hide BufOk, UniqueBlocks, Distinct, Bread, Contents, Dirty, Recycled;
    BreadContents(c, blockno);
    BreadData(c, blockno);
    var r := Bread(c, blockno);
    var gone := Recycled(c, blockno);
    t := s.(cache := s.cache - gone);
    u := t.(cache := t.cache[blockno := r.c.bufs[r.b].data]);
    if x :| x in gone {
      assert gone == {x} by { assert {x} <= gone; CardSubset(gone - {x}, gone); }
      assert Next(g, s, Evict(x)) == Ok(t);
    } else {
      assert s.cache - gone == s.cache;
    }
  }

  /** To the journal, `bwrite` of a held buffer writes its block. */
  lemma StoreRefines(c: Cache, s: State, b: nat, data: Block)
    requires Sound(c) && Matches(c, s) && b < |c.bufs| && c.bufs[b].valid && c.bufs[b].blockno < |c.disk|
    ensures Matches(Store(c, b, data), Put(s, c.bufs[b].blockno, data))
  {
    hide UniqueBlocks, Distinct, Contents, Dirty;
    assert BufOk(c.bufs[b], c.disk);
    StoreOk(c, b, data);
    OneBuffer(c, Store(c, b, data), b);
  }

  /** To the journal, `log_write` of a changed buffer caches the new data and makes the block dirty. */
  lemma PinRefines(c: Cache, s: State, b: nat, data: Block)
    requires Sound(c) && Matches(c, s) && b < |c.bufs| && c.bufs[b].valid
    ensures var x := c.bufs[b].blockno;
      Matches(Pin(c, b, data), s.(cache := s.cache[x := data], dirty := s.dirty + {x}))
  {
    hide UniqueBlocks, Distinct, Contents, Dirty, BufOk;
    PinOk(c, b, data);
    OneBuffer(c, Pin(c, b, data), b);
  }

  /** To the journal, `brelse` does nothing. */
  lemma ReleaseRefines(c: Cache, s: State, b: nat)
    requires Sound(c) && Matches(c, s) && b < |c.bufs| && 0 < c.bufs[b].refcnt
    ensures Matches(Release(c, b), s)
  {
    hide UniqueBlocks, BufOk, Distinct, Without, Contents, Dirty;
    ReleaseOk(c, b);
    SameContents(c, Release(c, b));
  }

  lemma SameContents(c: Cache, d: Cache)
    requires Sound(c) && Sound(d) && |c.bufs| == |d.bufs| && |c.disk| == |d.disk|
    requires forall i :: 0 <= i < |c.bufs| ==> d.bufs[i] == c.bufs[i].(refcnt := d.bufs[i].refcnt)
    ensures Contents(d) == Contents(c) && Dirty(d) == Dirty(c)
  {
    hide Slot, UniqueBlocks, BufOk, Distinct;
    forall x: nat ensures Slot(d.bufs, x) == Slot(c.bufs, x) {
      SlotUnchanged(c, d, x);
    }
  }

  lemma SlotUnchanged(c: Cache, d: Cache, x: nat)
    requires Sound(c) && Sound(d) && |c.bufs| == |d.bufs|
    requires forall i :: 0 <= i < |c.bufs| ==> d.bufs[i] == c.bufs[i].(refcnt := d.bufs[i].refcnt)
    ensures Slot(d.bufs, x) == Slot(c.bufs, x)
  {
    var k, m := Slot(c.bufs, x), Slot(d.bufs, x);
    if k < |c.bufs| { SlotIs(d, k); }
    if m < |d.bufs| { SlotIs(c, m); }
  }

  // ---------- how many buffers are enough ----------

  ghost function Slots(c: Cache, blocks: set<nat>): set<nat> { set x | x in blocks :: Slot(c.bufs, x) }

  lemma {:induction false} SlotsCard(c: Cache, blocks: set<nat>)
    ensures |Slots(c, blocks)| <= |blocks|
  {
    if x :| x in blocks {
      SlotsCard(c, blocks - {x});
      assert Slots(c, blocks) == Slots(c, blocks - {x}) + {Slot(c.bufs, x)};
    } else {
      assert Slots(c, blocks) == {};
    }
  }

  /** A lookup cannot fail while the buffers held, and the blocks that are dirty, are together fewer
      than `NBUF`. */
  lemma EnoughBuffers(c: Cache, held: set<nat>, blockno: nat)
    requires Sound(c) && blockno < |c.disk| && |held| + |Dirty(c)| < |c.bufs|
    requires forall b :: 0 <= b < |c.bufs| && 0 < c.bufs[b].refcnt ==> b in held
    ensures Bread(c, blockno).Got?
  {
    NoBuffersExactly(c, ROOTDEV, blockno);
    if Bread(c, blockno) == NoBuffers {
      var all := Members(c.order);
      forall b | b in all ensures b in held + Slots(c, Dirty(c)) {
        if c.bufs[b].dirty {
          assert BufOk(c.bufs[b], c.disk);
          KeyIs(c, b);
          SlotIs(c, b);
        }
      }
      SlotsCard(c, Dirty(c));
      CardSubset(all, held + Slots(c, Dirty(c)));
      DistinctCard(c.order);
    }
  }
}
