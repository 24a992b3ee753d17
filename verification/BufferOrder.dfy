/**
Which buffer `bget` takes and what `brelse` does to the ring: together they recycle the clean buffer
that was let go the longest ago.
*/
module BufferOrder {
  import opened Base
  import opened Journal
  import opened BufferCache

  /** All buffers but `b` are as they were. */
  predicate OthersSame(c: Cache, d: Cache, b: nat) {
    |d.bufs| == |c.bufs| && forall j :: 0 <= j < |c.bufs| && j != b ==> d.bufs[j] == c.bufs[j]
  }

  /** `bget` of a block in the cache takes the buffer nearest to the front that holds it, and only counts
      one more holder. */
  lemma BgetHits(c: Cache, dev: nat, blockno: nat, k: nat)
    requires Ordered(c.bufs, c.order) && k < |c.order| && Holds(c.bufs[c.order[k]], dev, blockno)
    requires forall j :: 0 <= j < k ==> !Holds(c.bufs[c.order[j]], dev, blockno)
    ensures var r, b := Bget(c, dev, blockno), c.order[k];
      && r.Got? && r.b == b && OthersSame(c, r.c, b) && r.c.order == c.order && r.c.disk == c.disk
      && r.c.bufs[b] == c.bufs[b].(refcnt := c.bufs[b].refcnt + 1)
  {
  }

  /** `bget` of any other block takes the buffer nearest to the back that nobody holds and that is not
      dirty; it is the block's now, not filled yet, with one holder. */
  lemma BgetRecycles(c: Cache, dev: nat, blockno: nat, k: nat)
    requires Ordered(c.bufs, c.order) && forall b :: 0 <= b < |c.bufs| ==> !Holds(c.bufs[b], dev, blockno)
    requires k < |c.order| && Unused(c.bufs[c.order[k]])
    requires forall j :: k < j < |c.order| ==> !Unused(c.bufs[c.order[j]])
    ensures var r, b := Bget(c, dev, blockno), c.order[k];
      && r.Got? && r.b == b && OthersSame(c, r.c, b) && r.c.order == c.order && r.c.disk == c.disk
      && r.c.bufs[b] == Buf(dev, blockno, false, false, 1, c.bufs[b].data)
  {
  }

  /** `brelse` by the last holder moves the buffer to the front and leaves the others in order; by any
      other holder it only counts one less. */
  lemma ReleaseExact(c: Cache, b: nat, k: nat)
    requires Ordered(c.bufs, c.order) && k < |c.order| && c.order[k] == b && 0 < c.bufs[b].refcnt
    ensures var d := Release(c, b);
      && OthersSame(c, d, b) && d.bufs[b] == c.bufs[b].(refcnt := c.bufs[b].refcnt - 1) && d.disk == c.disk
      && d.order == if c.bufs[b].refcnt == 1 then [b] + c.order[..k] + c.order[k + 1..] else c.order
  {
    WithoutAt(c.order, b, k);
  }

  lemma FrontAgain(c: Cache, b: nat) returns (k: nat)
    requires Ordered(c.bufs, c.order) && b < |c.bufs| && c.bufs[b].refcnt == 1
    ensures k < |c.order| && c.order[k] == b
    ensures Ordered(Release(c, b).bufs, Release(c, b).order)
    ensures Release(c, b).order == [b] + c.order[..k] + c.order[k + 1..]
  {
    RingHasAll(c, b);
    k :| 0 <= k < |c.order| && c.order[k] == b;
    ReleaseExact(c, b, k);
    FrontOrdered(c.bufs, c.order, b);
    SameOrdered(c.bufs, Release(c, b).bufs, Release(c, b).order);
  }

  /** A buffer just let go by its last holder is the next to be recycled exactly if it is clean and
      every other buffer is held or dirty. */
  lemma LastResort(c: Cache, b: nat, dev: nat, blockno: nat)
    requires Ordered(c.bufs, c.order) && b < |c.bufs| && c.bufs[b].refcnt == 1
    requires forall j :: 0 <= j < |c.bufs| ==> !Holds(c.bufs[j], dev, blockno)
    ensures var d := Release(c, b);
      && Ordered(d.bufs, d.order)
      && (Bget(d, dev, blockno).Got? && Bget(d, dev, blockno).b == b <==>
          !c.bufs[b].dirty && forall j :: 0 <= j < |c.bufs| && j != b ==> !Unused(c.bufs[j]))
  {
    var k := FrontAgain(c, b);
    var d := Release(c, b);
    var v := Victim(d.bufs, d.order);
    assert d.order[0] == b;
    if 1 == v {
      forall j | 0 <= j < |c.bufs| && j != b ensures !Unused(c.bufs[j]) {
        RingHasAll(d, j);
        var i :| 0 <= i < |d.order| && d.order[i] == j;
      }
    } else if 1 < v {
      assert d.order[v - 1] != b && Unused(c.bufs[d.order[v - 1]]);
    } else {
      assert !Unused(d.bufs[d.order[0]]);
    }
  }

  // ---------- least recently let go ----------

  /** `at[b]` is when buffer `b` was last let go for good; the ring runs from the latest to the earliest. */
  ghost predicate ByAge(c: Cache, at: seq<nat>) {
    |at| == |c.bufs| && Ordered(c.bufs, c.order) && forall i, j :: 0 <= i < j < |c.order| ==> at[c.order[i]] >= at[c.order[j]]
  }

  /** A release at a later time keeps the ring by age. */
  lemma ReleaseAges(c: Cache, at: seq<nat>, b: nat, now: nat)
    requires ByAge(c, at) && b < |c.bufs| && 0 < c.bufs[b].refcnt && forall j :: 0 <= j < |at| ==> at[j] <= now
    ensures ByAge(Release(c, b), if c.bufs[b].refcnt == 1 then at[b := now] else at)
  {
    if c.bufs[b].refcnt == 1 {
      var k := FrontAgain(c, b);
      var d, at1 := Release(c, b), at[b := now];
      forall i, j | 0 <= i < j < |d.order| ensures at1[d.order[i]] >= at1[d.order[j]] {
        if i > 0 {
          var x, y := if i <= k then i - 1 else i, if j <= k then j - 1 else j;
          assert d.order[i] == c.order[x] && d.order[j] == c.order[y];
        }
      }
    } else {
      SameOrdered(c.bufs, Release(c, b).bufs, c.order);
    }
  }

  /** A lookup leaves the ring by age, and if it recycles a buffer, no buffer that it could have taken
      was let go earlier. */
  lemma OldestGoes(c: Cache, at: seq<nat>, dev: nat, blockno: nat)
    requires ByAge(c, at) && Bget(c, dev, blockno).Got?
    ensures var r := Bget(c, dev, blockno);
      && ByAge(r.c, at) && r.b < |c.bufs|
      && (Holds(c.bufs[r.b], dev, blockno) ||
          (Unused(c.bufs[r.b]) && forall j :: 0 <= j < |c.bufs| && Unused(c.bufs[j]) ==> at[r.b] <= at[j]))
  {
    var r := Bget(c, dev, blockno);
    SameOrdered(c.bufs, r.c.bufs, c.order);
    if !Holds(c.bufs[r.b], dev, blockno) {
      forall j | 0 <= j < |c.bufs| && Unused(c.bufs[j]) ensures at[r.b] <= at[j] {
        RingHasAll(c, j);
        var i :| 0 <= i < |c.order| && c.order[i] == j;
      }
    }
  }
}
