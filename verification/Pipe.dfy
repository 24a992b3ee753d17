/**
`pipe.c`: the ring buffer with its wrapping counters, and the protocol of its readers and writers
with `sleep` and `wakeup`. A step is what one process does while it holds the pipe's lock.
*/
module Pipe {
  import opened Base

  const SIZE := 512
  /** The counters are 32 bits wide. */
  const WORD := 0x1_0000_0000

  type Counter = x: nat | x < WORD

  datatype Ring = Ring(data: seq<nat>, nread: Counter, nwrite: Counter, readopen: bool, writeopen: bool)

  /** Unsigned addition, for a small `k`. */
  function Plus(x: Counter, k: nat): Counter
    requires k <= SIZE
  {
    if x + k < WORD then x + k else x + k - WORD
  }

  predicate Full(r: Ring) { r.nwrite == Plus(r.nread, SIZE) }

  predicate Empty(r: Ring) { r.nread == r.nwrite }

  function PutByte(r: Ring, x: nat): Ring
    requires |r.data| == SIZE
  {
    r.(data := r.data[r.nwrite % SIZE := x], nwrite := Plus(r.nwrite, 1))
  }

  function TakeByte(r: Ring): Ring { r.(nread := Plus(r.nread, 1)) }

  /** The loop of `pipewrite` up to where it is done or finds the ring full. */
  function PutAll(r: Ring, bytes: seq<nat>): (Ring, seq<nat>)
    requires |r.data| == SIZE
    decreases |bytes|
  {
    if bytes == [] || Full(r) then (r, bytes) else PutAll(PutByte(r, bytes[0]), bytes[1..])
  }

  /** The copying loop of `piperead`. */
  function TakeAll(r: Ring, n: nat): (Ring, seq<nat>)
    requires |r.data| == SIZE
    decreases n
  {
    if n == 0 || Empty(r) then (r, [])
    else
      var (r1, out) := TakeAll(TakeByte(r), n - 1);
      (r1, [r.data[r.nread % SIZE]] + out)
  }

  // ---------- the ring is a bounded queue ----------

  function Length(r: Ring): nat { if r.nread <= r.nwrite then r.nwrite - r.nread else r.nwrite + WORD - r.nread }

  predicate Sound(r: Ring) { |r.data| == SIZE && Length(r) <= SIZE }

  /** The position of the `k`th byte from the front. */
  function Position(r: Ring, k: nat): (p: nat)
    ensures p < SIZE
  {
    (r.nread + k) % SIZE
  }

  function Queued(r: Ring): (q: seq<nat>)
    requires Sound(r)
    ensures |q| == Length(r)
  {
    seq(Length(r), k requires 0 <= k => r.data[Position(r, k)])
  }

  /** The counters tell full from empty also after they have wrapped. */
  lemma Tests(r: Ring)
    requires Sound(r)
    ensures Full(r) <==> |Queued(r)| == SIZE
    ensures Empty(r) <==> Queued(r) == []
  {
  }

  lemma Apart(a: nat, b: nat)
    requires a <= b < a + SIZE && a % SIZE == b % SIZE
    ensures a == b
  {
  }

  /** 512 divides 2^32, so wrapping a counter does not move its position. */
  lemma Wraps(x: nat)
    requires x >= WORD
    ensures (x - WORD) % SIZE == x % SIZE
  {
    assert WORD == SIZE * 8388608;
  }

  lemma PutPosition(r: Ring, k: nat)
    requires Sound(r) && !Full(r) && k <= Length(r)
    ensures k == Length(r) <==> Position(r, k) == r.nwrite % SIZE
  {
    var end := r.nread + Length(r);
    if end >= WORD { Wraps(end); }
    assert end % SIZE == r.nwrite % SIZE;
    if Position(r, k) == r.nwrite % SIZE { Apart(r.nread + k, end); }
  }

  lemma PutOne(r: Ring, x: nat)
    requires Sound(r) && !Full(r)
    ensures Sound(PutByte(r, x)) && Queued(PutByte(r, x)) == Queued(r) + [x]
  {
    hide Position;
    var r1 := PutByte(r, x);
    assert Length(r1) == Length(r) + 1;
    forall k | 0 <= k < Length(r1) ensures Queued(r1)[k] == (Queued(r) + [x])[k] {
      PutPosition(r, k);
      SamePosition(r, r1, k);
      if k < Length(r) { assert Queued(r)[k] == r.data[Position(r, k)]; }
    }
  }

  lemma SamePosition(r: Ring, r1: Ring, k: nat)
    requires r1.nread == r.nread
    ensures Position(r1, k) == Position(r, k)
  {
  }

  lemma TakePosition(r: Ring, k: nat)
    ensures Position(TakeByte(r), k) == Position(r, k + 1)
  {
    if r.nread + 1 == WORD { Wraps(r.nread + (k + 1)); }
  }

  lemma TakeOne(r: Ring)
    requires Sound(r) && !Empty(r)
    ensures Sound(TakeByte(r)) && Queued(r) == [r.data[r.nread % SIZE]] + Queued(TakeByte(r))
  {
    var r1 := TakeByte(r);
    assert Length(r1) == Length(r) - 1;
    assert Queued(r)[0] == r.data[r.nread % SIZE];
    hide Position;
    forall k | 0 <= k < Length(r1) ensures Queued(r)[k + 1] == Queued(r1)[k] {
      TakePosition(r, k);
    }
  }

  /** The writing loop appends what fits, in order. */
  lemma {:induction false} PutAllQueues(r: Ring, bytes: seq<nat>)
    requires Sound(r)
    ensures var (r1, left) := PutAll(r, bytes);
      && Sound(r1) && r1 == r.(data := r1.data, nwrite := r1.nwrite) && |left| <= |bytes|
      && Queued(r1) == Queued(r) + bytes[..|bytes| - |left|] && left == bytes[|bytes| - |left|..]
      && |left| == Max(0, |bytes| - (SIZE - |Queued(r)|))
    decreases |bytes|
  {
    Tests(r);
    if bytes == [] || Full(r) {
    } else {
      PutOne(r, bytes[0]);
      PutAllQueues(PutByte(r, bytes[0]), bytes[1..]);
      var left := PutAll(r, bytes).1;
      assert bytes[..|bytes| - |left|] == [bytes[0]] + bytes[1..][..|bytes[1..]| - |left|];
    }
  }

  /** The reading loop takes from the front as much as there is and as is asked for. */
  lemma {:induction false} TakeAllDequeues(r: Ring, n: nat)
    requires Sound(r)
    ensures var (r1, out) := TakeAll(r, n);
      && Sound(r1) && r1 == r.(nread := r1.nread) && Queued(r) == out + Queued(r1)
      && |out| == Min(n, |Queued(r)|)
    decreases n
  {
    Tests(r);
    if n == 0 || Empty(r) {
    } else {
      TakeOne(r);
      TakeAllDequeues(TakeByte(r), n - 1);
    }
  }
}
