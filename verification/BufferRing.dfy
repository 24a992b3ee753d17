/**
`bio.c` as it works: buffers in an array, strung on a doubly linked ring through index links, with
the list head as the last index.
*/
module BufferRing {
  import opened Base
  import opened Journal
  import opened BufferCache

  /** What stands at position `i` of the ring: the head at 0 and again after the last buffer. */
  function At(order: seq<nat>, head: nat, i: int): nat { if 1 <= i <= |order| then order[i - 1] else head }

  /** Position `i` of the ring and the next are linked to each other. */
  ghost predicate Link(next: seq<nat>, prev: seq<nat>, order: seq<nat>, i: nat) {
    && 0 < |next|
    && var x, y := At(order, |next| - 1, i), At(order, |next| - 1, i + 1);
    x < |next| && y < |prev| && next[x] == y && prev[y] == x
  }

  /** The links run through `order`, forwards by `next` and backwards by `prev`. */
  ghost predicate Linked(next: seq<nat>, prev: seq<nat>, order: seq<nat>) { Whole(LinkedFacts(next, prev, order)) }

  ghost predicate LinkedFacts(next: seq<nat>, prev: seq<nat>, order: seq<nat>) {
    && |next| == |prev| > 0 && Distinct(order)
    && (forall k :: 0 <= k < |order| ==> order[k] < |next| - 1)
    && (forall i :: 0 <= i <= |order| ==> Link(next, prev, order, i))
  }

  /** The four stores of `binit` and `brelse` that put buffer `b` at the front. */
  lemma FrontLinked(next: seq<nat>, prev: seq<nat>, order: seq<nat>, b: nat)
    requires Linked(next, prev, order) && b < |next| - 1 && b !in order
    ensures var head := |next| - 1;
      next[head] < |prev| && Linked(next[b := next[head]][head := b], prev[b := head][next[head] := b], [b] + order)
  {
    var head := |next| - 1;
    assert Link(next, prev, order, 0);
    var next1, prev1, order1 := next[b := next[head]][head := b], prev[b := head][next[head] := b], [b] + order;
    forall i | 0 <= i <= |order1| ensures Link(next1, prev1, order1, i) {
      if i >= 1 { assert Link(next, prev, order, i - 1); }
    }
    assert Distinct(order1);
  }

  /** The two stores of `brelse` that take buffer `b` out of the ring. */
  lemma UnlinkLinked(next: seq<nat>, prev: seq<nat>, order: seq<nat>, k: nat)
    requires Linked(next, prev, order) && k < |order|
    ensures var b := order[k];
      && b < |next| == |prev| && next[b] < |prev| && prev[b] < |next|
      && Linked(next[prev[b] := next[b]], prev[next[b] := prev[b]], order[..k] + order[k + 1..])
  {
    var b := order[k];
    assert Link(next, prev, order, k) && Link(next, prev, order, k + 1);
    var next1, prev1, order1 := next[prev[b] := next[b]], prev[next[b] := prev[b]], order[..k] + order[k + 1..];
    assert forall j {:trigger order1[j]} :: 0 <= j < |order1| ==> order1[j] == if j < k then order[j] else order[j + 1];
    forall i | 0 <= i <= |order1| ensures Link(next1, prev1, order1, i) {
      assert Link(next, prev, order, i) && Link(next, prev, order, i + 1);
    }
    assert Distinct(order1);
  }

  class BCache {
    const bufs: array<Buf>
    const next: array<nat>
    const prev: array<nat>
    const disk: array<Block>
    /** The buffers on the ring, from the most recently released on. */
    ghost var order: seq<nat>

    ghost function View(): Cache
      reads this, bufs, disk
    {
      Cache(bufs[..], order, disk[..])
    }

    /** The ring as it stands, also while `binit` is at work. */
    ghost predicate Strung()
      reads this, next, prev
    {
      next != prev && next.Length == prev.Length == bufs.Length + 1 && Linked(next[..], prev[..], order)
    }

    ghost predicate Valid()
      reads this, bufs, next, prev, disk
    {
      Strung() && Sound(View())
    }

    /** The memory at boot: buffers all zero, for no device. */
    constructor (nbuf: nat, disk: array<Block>)
      ensures Valid() && this.disk == disk && bufs.Length == nbuf && fresh(bufs) && fresh(next) && fresh(prev)
      ensures forall b :: 0 <= b < nbuf ==> bufs[b] == Buf(0, 0, false, false, 0, [])
      ensures order == seq(nbuf, i => nbuf - 1 - i)
    {
      this.disk := disk;
      bufs := new Buf[nbuf](_ => Buf(0, 0, false, false, 0, []));
      next := new nat[nbuf + 1](_ => nbuf);
      prev := new nat[nbuf + 1](_ => nbuf);
      order := [];
      new;
      Binit();
    }

    method LinkFront(b: nat)
      requires Strung() && b < bufs.Length && b !in order
      modifies next, prev, this`order
      ensures Strung() && order == [b] + old(order)
    {
      var head := bufs.Length;
      FrontLinked(next[..], prev[..], order, b);
      next[b] := next[head];
      prev[b] := head;
      prev[next[head]] := b;
      next[head] := b;
      order := [b] + order;
      assert next[..] == old(next[..])[b := old(next[head])][head := b];
      assert prev[..] == old(prev[..])[b := head][old(next[head]) := b];
    }

    method Unlink(b: nat)
      requires Strung() && b in order
      modifies next, prev, this`order
      ensures Strung() && order == Without(old(order), b)
    {
      ghost var k := IndexOf(order, b);
      WithoutAt(order, b, k);
      UnlinkLinked(next[..], prev[..], order, k);
      prev[next[b]] := prev[b];
      next[prev[b]] := next[b];
      order := Without(order, b);
    }

    /** The loop of `binit`: each buffer goes to the front of the ring. */
    method Binit()
      requires next != prev && next.Length == prev.Length == bufs.Length + 1 && order == []
      modifies next, prev, this`order
      ensures Strung() && order == seq(bufs.Length, i => bufs.Length - 1 - i)
    {
      var b, head := 0, bufs.Length;
      prev[head] := head;
      next[head] := head;
      assert Link(next[..], prev[..], order, 0);
      while b < bufs.Length
        invariant b <= bufs.Length && Strung() && |order| == b
        invariant forall i :: 0 <= i < b ==> order[i] == b - 1 - i
      {
        LinkFront(b);
        b := b + 1;
      }
    }

    /** The loop that looks for the block, forwards; the head stands for not found. */
    method Find(dev: nat, blockno: nat) returns (b: nat)
      requires Valid()
      ensures b == At(order, bufs.Length, Hit(bufs[..], order, dev, blockno) + 1)
    {
      var head := bufs.Length;
      b := next[head];
      ghost var k := 0;
      assert Link(next[..], prev[..], order, 0);
      while b != head && !(bufs[b].dev == dev && bufs[b].blockno == blockno)
        invariant k <= |order| && b == At(order, head, k + 1)
        invariant forall j :: 0 <= j < k ==> !Holds(bufs[order[j]], dev, blockno)
        decreases |order| - k
      {
        assert Link(next[..], prev[..], order, k + 1);
        b := next[b];
        k := k + 1;
      }
    }

    /** The loop that looks for a buffer to recycle, backwards. */
    method FindUnused() returns (b: nat)
      requires Valid()
      ensures b == At(order, bufs.Length, Victim(bufs[..], order))
    {
      var head := bufs.Length;
      ghost var k := |order|;
      assert Link(next[..], prev[..], order, k);
      b := prev[head];
      while b != head && !(bufs[b].refcnt == 0 && !bufs[b].dirty)
        invariant 0 <= k <= |order| && b == At(order, head, k)
        invariant forall j :: k <= j < |order| ==> !Unused(bufs[order[j]])
        decreases k
      {
        assert Link(next[..], prev[..], order, k - 1);
        b := prev[b];
        k := k - 1;
      }
    }

    method SetBuf(b: nat, x: Buf)
      requires Valid() && b < bufs.Length && Sound(View().(bufs := bufs[..][b := x]))
      modifies bufs
      ensures Valid() && View() == old(View()).(bufs := old(bufs[..])[b := x])
    {
      hide Sound, Linked;
      bufs[b] := x;
      assert bufs[..] == old(bufs[..])[b := x];
    }

    /** `bget`; no result stands for its panic. */
    method GetBuffer(dev: nat, blockno: nat) returns (r: Option<nat>)
      requires Valid()
      modifies bufs
      ensures Valid()
      ensures BufferCache.Bget(old(View()), dev, blockno) == if r.Some? then Got(View(), r.value) else NoBuffers
      ensures r.None? ==> View() == old(View())
    {
      hide Linked, Hit, Victim, UniqueBlocks, BufOk, Distinct;
      var b := Find(dev, blockno);
      ghost var result := BufferCache.Bget(View(), dev, blockno);
      if result.Got? { BgetOk(View(), dev, blockno); }
      if b != bufs.Length {
        SetBuf(b, bufs[b].(refcnt := bufs[b].refcnt + 1));
        return Some(b);
      }
      b := FindUnused();
      if b != bufs.Length {
        SetBuf(b, Buf(dev, blockno, false, false, 1, bufs[b].data));
        return Some(b);
      }
      return None;
    }

    /** `bread`: the buffer, filled by `iderw` if need be. */
    method BreadBuffer(blockno: nat) returns (r: Option<nat>)
      requires Valid() && blockno < disk.Length
      modifies bufs
      ensures Valid()
      ensures Bread(old(View()), blockno) == if r.Some? then Got(View(), r.value) else NoBuffers
      ensures r.None? ==> View() == old(View())
    {
      hide Linked, Sound, Bget;
      BreadFacts(View(), blockno);
      r := GetBuffer(ROOTDEV, blockno);
      if r.Some? && !bufs[r.value].valid {
        FillOk(View(), r.value);
        SetBuf(r.value, bufs[r.value].(valid := true, data := disk[bufs[r.value].blockno]));
      }
    }

    /** The holder of a buffer puts data into it and calls `bwrite`, which calls `iderw`. */
    method BwriteBuffer(b: nat, data: Block)
      requires Valid() && b < bufs.Length && bufs[b].dev == ROOTDEV && bufs[b].blockno < disk.Length
      modifies bufs, disk
      ensures Valid() && View() == Store(old(View()), b, data)
    {
      hide Linked, Sound;
      StoreOk(View(), b, data);
      bufs[b] := bufs[b].(dirty := true, data := data);
      bufs[b] := bufs[b].(dirty := false, valid := true);
      disk[bufs[b].blockno] := bufs[b].data;
      assert View() == Store(old(View()), b, data);
    }

    /** The holder of a buffer puts data into it and calls `log_write`, which marks it dirty. */
    method PinBuffer(b: nat, data: Block)
      requires Valid() && b < bufs.Length && bufs[b].valid
      modifies bufs
      ensures Valid() && View() == Pin(old(View()), b, data)
    {
      hide Linked, Sound;
      PinOk(View(), b, data);
      SetBuf(b, bufs[b].(dirty := true, data := data));
    }

    /** `brelse` by a holder: when the last one lets go, the buffer becomes the most recently used. */
    method Brelse(b: nat)
      requires Valid() && b < bufs.Length && 0 < bufs[b].refcnt
      modifies bufs, next, prev, this`order
      ensures Valid() && View() == Release(old(View()), b)
    {
      hide Linked, Sound;
      ReleaseOk(View(), b);
      OrderFacts(View(), b);
      bufs[b] := bufs[b].(refcnt := bufs[b].refcnt - 1);
      if bufs[b].refcnt == 0 {
        Unlink(b);
        LinkFront(b);
      }
      assert View() == Release(old(View()), b);
    }
  }

  lemma BreadFacts(c: Cache, blockno: nat)
    requires Sound(c) && blockno < |c.disk|
    ensures Ordered(c.bufs, c.order)
    ensures var r := Bget(c, ROOTDEV, blockno);
      r.Got? ==> r.b < |r.c.bufs| && Holds(r.c.bufs[r.b], ROOTDEV, blockno) && r.c.disk == c.disk
  {
    if Bget(c, ROOTDEV, blockno).Got? { BgetOk(c, ROOTDEV, blockno); }
  }

  lemma OrderFacts(c: Cache, b: nat)
    requires Sound(c) && b < |c.bufs|
    ensures b in c.order && b !in Without(c.order, b)
  {
    RingHasAll(c, b);
    var k := IndexOf(c.order, b);
    WithoutAt(c.order, b, k);
  }
}
