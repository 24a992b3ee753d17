/**
Readers and writers of a pipe over all interleavings of their locked sections: the stream, and
when a sleeper has reason to sleep.
*/
module PipeRuns {
  import opened Base
  import opened Pipe

  /** What a process does with the pipe: it is in a call, asleep in it or ready to go on. */
  datatype Call = Away | Writing(left: seq<nat>, asleep: bool) | Reading(n: nat, asleep: bool)

  /** `sent` and `received` are all bytes put into and taken out of the ring so far. */
  datatype State = State(ring: Ring, calls: seq<Call>, killed: seq<bool>, sent: seq<nat>, received: seq<nat>)

  datatype Step = Write(p: nat, bytes: seq<nat>) | Read(p: nat, n: nat) | Resume(p: nat) | Close(writable: bool) | Kill(p: nat)

  function Woken(c: Call): Call { if c.Away? then c else c.(asleep := false) }

  /** `wakeup` of those who wait for bytes. */
  function WakeReaders(calls: seq<Call>): (r: seq<Call>)
    ensures |r| == |calls|
    ensures forall i :: 0 <= i < |r| ==> r[i] == if calls[i].Reading? then Woken(calls[i]) else calls[i]
  {
    seq(|calls|, i requires 0 <= i < |calls| => if calls[i].Reading? then Woken(calls[i]) else calls[i])
  }

  /** `wakeup` of those who wait for room. */
  function WakeWriters(calls: seq<Call>): (r: seq<Call>)
    ensures |r| == |calls|
    ensures forall i :: 0 <= i < |r| ==> r[i] == if calls[i].Writing? then Woken(calls[i]) else calls[i]
  {
    seq(|calls|, i requires 0 <= i < |calls| => if calls[i].Writing? then Woken(calls[i]) else calls[i])
  }

  predicate Shaped(s: State) { Pipe.Sound(s.ring) && |s.killed| == |s.calls| }

  /** `pipewrite` from the test for a full ring on: until done, asleep, or given up. */
  function RunWrite(s: State, p: nat, bytes: seq<nat>): State
    requires Shaped(s) && p < |s.calls|
  {
    var (ring, left) := PutAll(s.ring, bytes);
    var s1 := s.(ring := ring, sent := s.sent + Done(bytes, left));
    if left == [] then s1.(calls := WakeReaders(s.calls)[p := Away])
    else if GivesUp(s, p) then s1.(calls := s.calls[p := Away])
    else s1.(calls := WakeReaders(s.calls)[p := Writing(left, true)])
  }

  function Done(bytes: seq<nat>, left: seq<nat>): seq<nat> {
    if |left| <= |bytes| then bytes[..|bytes| - |left|] else []
  }

  /** The test on which a write to a full ring returns -1. */
  predicate GivesUp(s: State, p: nat)
    requires |s.killed| == |s.calls| && p < |s.calls|
  {
    !s.ring.readopen || s.killed[p]
  }

  /** `piperead` from the test for an empty ring on. */
  function RunRead(s: State, p: nat, n: nat): State
    requires Shaped(s) && p < |s.calls|
  {
    if Empty(s.ring) && s.ring.writeopen then
      s.(calls := s.calls[p := if s.killed[p] then Away else Reading(n, true)])
    else
      var (ring, out) := TakeAll(s.ring, n);
      s.(ring := ring, received := s.received + out, calls := WakeWriters(s.calls)[p := Away])
  }

  /** A call needs its end open; an end closes when no process is in a call on it. */
  predicate Enabled(s: State, step: Step) {
    && Shaped(s)
    && match step
      case Write(p, _) => p < |s.calls| && s.calls[p] == Away && s.ring.writeopen
      case Read(p, _) => p < |s.calls| && s.calls[p] == Away && s.ring.readopen
      case Resume(p) => p < |s.calls| && s.calls[p] != Away && !s.calls[p].asleep
      case Close(true) => s.ring.writeopen && forall i :: 0 <= i < |s.calls| ==> !s.calls[i].Writing?
      case Close(false) => s.ring.readopen && forall i :: 0 <= i < |s.calls| ==> !s.calls[i].Reading?
      case Kill(p) => p < |s.calls|
  }

  function Next(s: State, step: Step): State
    requires Enabled(s, step)
  {
    match step
    case Write(p, bytes) => RunWrite(s, p, bytes)
    case Read(p, n) => RunRead(s, p, n)
    case Resume(p) => if s.calls[p].Writing? then RunWrite(s, p, s.calls[p].left) else RunRead(s, p, s.calls[p].n)
    case Close(true) => s.(ring := s.ring.(writeopen := false), calls := WakeReaders(s.calls))
    case Close(false) => s.(ring := s.ring.(readopen := false), calls := WakeWriters(s.calls))
    case Kill(p) => s.(killed := s.killed[p := true], calls := s.calls[p := Woken(s.calls[p])])
  }

  function Boot(procs: nat): State {
    State(Ring(seq(SIZE, i => 0), 0, 0, true, true), seq(procs, i => Away), seq(procs, i => false), [], [])
  }

  // ---------- the stream ----------

  /** What was sent is what was received and what the ring holds, in this order. */
  predicate Stream(s: State) { Shaped(s) && s.sent == s.received + Queued(s.ring) }

  lemma WriteStream(s: State, p: nat, bytes: seq<nat>)
    requires Stream(s) && p < |s.calls|
    ensures Stream(RunWrite(s, p, bytes))
  {
    PutAllQueues(s.ring, bytes);
  }

  lemma ReadStream(s: State, p: nat, n: nat)
    requires Stream(s) && p < |s.calls|
    ensures Stream(RunRead(s, p, n))
  {
    TakeAllDequeues(s.ring, n);
    var (ring, out) := TakeAll(s.ring, n);
    assert s.received + (out + Queued(ring)) == (s.received + out) + Queued(ring);
  }

  lemma SameQueued(r: Ring, r1: Ring)
    requires Pipe.Sound(r) && r1 == r.(readopen := r1.readopen, writeopen := r1.writeopen)
    ensures Pipe.Sound(r1) && Queued(r1) == Queued(r)
  {
  }

  lemma StepStream(s: State, step: Step)
    requires Stream(s) && Enabled(s, step)
    ensures Stream(Next(s, step))
  {
    hide Queued;
    match step
    case Write(p, bytes) => WriteStream(s, p, bytes);
    case Read(p, n) => ReadStream(s, p, n);
    case Resume(p) => if s.calls[p].Writing? { WriteStream(s, p, s.calls[p].left); } else { ReadStream(s, p, s.calls[p].n); }
    case Close(_) => SameQueued(s.ring, Next(s, step).ring);
    case Kill(p) =>
  }

  // ---------- sleepers ----------

  predicate Sleeping(c: Call) { !c.Away? && c.asleep }

  /** Nobody sleeps without reason: readers on an empty ring that may still be written to, writers
      on a full one that may still be read. */
  predicate Reasoned(s: State) {
    forall i :: 0 <= i < |s.calls| && Sleeping(s.calls[i]) ==>
      if s.calls[i].Reading? then Empty(s.ring) && s.ring.writeopen else Full(s.ring) && s.ring.readopen
  }

  predicate ReaderSleeps(s: State) { exists i :: 0 <= i < |s.calls| && s.calls[i].Reading? && Sleeping(s.calls[i]) }

  /** The step is a write that finds the ring full and returns -1, without a wakeup. */
  predicate GaveUp(s: State, step: Step)
    requires Enabled(s, step)
  {
    match step
    case Write(p, bytes) => PutAll(s.ring, bytes).1 != [] && GivesUp(s, p)
    case Resume(p) => s.calls[p].Writing? && PutAll(s.ring, s.calls[p].left).1 != [] && GivesUp(s, p)
    case _ => false
  }

  lemma PutAllEnds(r: Ring, bytes: seq<nat>)
    requires Pipe.Sound(r)
    ensures var (r1, left) := PutAll(r, bytes);
      && (left != [] ==> Full(r1) && !Empty(r1)) && (Full(r) ==> r1 == r)
      && r1.readopen == r.readopen && r1.writeopen == r.writeopen && Pipe.Sound(r1)
  {
    PutAllQueues(r, bytes);
    Tests(r);
    Tests(PutAll(r, bytes).0);
  }

  lemma WriteReasoned(s: State, p: nat, bytes: seq<nat>)
    requires Shaped(s) && Reasoned(s) && p < |s.calls| && !Sleeping(s.calls[p])
    ensures Reasoned(RunWrite(s, p, bytes)) <==>
      !(PutAll(s.ring, bytes).1 != [] && GivesUp(s, p) && ReaderSleeps(s))
  {
    hide PutAll, Full, Empty;
    PutAllEnds(s.ring, bytes);
    var t := RunWrite(s, p, bytes);
    if PutAll(s.ring, bytes).1 != [] && GivesUp(s, p) && ReaderSleeps(s) {
      var i :| 0 <= i < |s.calls| && s.calls[i].Reading? && Sleeping(s.calls[i]);
      assert t.calls[i] == s.calls[i];
    }
  }

  lemma ReadReasoned(s: State, p: nat, n: nat)
    requires Shaped(s) && Reasoned(s) && p < |s.calls| && !Sleeping(s.calls[p])
    ensures Reasoned(RunRead(s, p, n))
  {
    hide TakeAll;
    TakeAllDequeues(s.ring, n);
    Tests(s.ring);
    Tests(TakeAll(s.ring, n).0);
  }

  /** Exactly when a step leaves someone asleep without reason: a write gives up on a full ring,
      with a `wakeup` due to a reader that went to sleep while the ring was empty. */
  lemma StepReasoned(s: State, step: Step)
    requires Enabled(s, step) && Reasoned(s)
    ensures Reasoned(Next(s, step)) <==> !(GaveUp(s, step) && ReaderSleeps(s))
  {
    hide RunRead, RunWrite, PutAll;
    match step
    case Write(p, bytes) => WriteReasoned(s, p, bytes);
    case Read(p, n) => ReadReasoned(s, p, n);
    case Resume(p) => if s.calls[p].Writing? { WriteReasoned(s, p, s.calls[p].left); } else { ReadReasoned(s, p, s.calls[p].n); }
    case Close(_) =>
    case Kill(p) =>
  }

  // ---------- runs ----------

  ghost predicate Run(procs: nat, ss: seq<State>, steps: seq<Step>) {
    && |ss| == |steps| + 1 && ss[0] == Boot(procs)
    && forall i {:trigger steps[i]} :: 0 <= i < |steps| ==> Enabled(ss[i], steps[i]) && ss[i + 1] == Next(ss[i], steps[i])
  }

  /** Over every run, what was received so far is a prefix of what was sent, and the rest of it is
      in the ring: no byte is lost, repeated or reordered, however often the counters wrap. */
  lemma {:induction false} RunStream(procs: nat, ss: seq<State>, steps: seq<Step>, i: nat)
    requires Run(procs, ss, steps) && i <= |steps|
    ensures Stream(ss[i]) && ss[i].received <= ss[i].sent && |ss[i].sent| - |ss[i].received| <= SIZE
  {
    hide Queued, Next, Boot, Enabled;
    if i == 0 {
      BootFacts(procs);
    } else {
      RunStream(procs, ss, steps, i - 1);
      assert Enabled(ss[i - 1], steps[i - 1]) && ss[i - 1 + 1] == Next(ss[i - 1], steps[i - 1]);
      StepStream(ss[i - 1], steps[i - 1]);
    }
  }

  lemma BootFacts(procs: nat)
    ensures Stream(Boot(procs)) && Reasoned(Boot(procs))
  {
  }

  /** Over every run in which no write gives up while a reader sleeps, nobody sleeps without reason. */
  lemma {:induction false} RunReasoned(procs: nat, ss: seq<State>, steps: seq<Step>, i: nat)
    requires Run(procs, ss, steps) && i <= |steps|
    requires forall k :: 0 <= k < i ==> Enabled(ss[k], steps[k]) && !(GaveUp(ss[k], steps[k]) && ReaderSleeps(ss[k]))
    ensures Reasoned(ss[i])
  {
    hide Next, Boot, Enabled, Reasoned, GaveUp, ReaderSleeps;
    if i == 0 {
      BootFacts(procs);
    } else {
      RunReasoned(procs, ss, steps, i - 1);
      assert Enabled(ss[i - 1], steps[i - 1]) && ss[i - 1 + 1] == Next(ss[i - 1], steps[i - 1]);
      StepReasoned(ss[i - 1], steps[i - 1]);
    }
  }

  /** A process in a call has its end of the pipe open. */
  predicate Attended(s: State) {
    forall i :: 0 <= i < |s.calls| ==>
      (s.calls[i].Reading? ==> s.ring.readopen) && (s.calls[i].Writing? ==> s.ring.writeopen)
  }

  lemma StepAttended(s: State, step: Step)
    requires Enabled(s, step) && Attended(s)
    ensures Attended(Next(s, step))
  {
    hide PutAll, TakeAll;
    match step
    case Write(p, bytes) => PutAllQueues(s.ring, bytes);
    case Read(p, n) => TakeAllDequeues(s.ring, n);
    case Resume(p) => if s.calls[p].Writing? { PutAllQueues(s.ring, s.calls[p].left); } else { TakeAllDequeues(s.ring, s.calls[p].n); }
    case Close(_) =>
    case Kill(p) =>
  }

  /** So a pipe is freed, with both ends closed, only when nobody is in a call on it; and a write
      that gives up while a reader sleeps is one of a killed process. */
  lemma {:induction false} RunAttended(procs: nat, ss: seq<State>, steps: seq<Step>, i: nat)
    requires Run(procs, ss, steps) && i <= |steps|
    ensures Attended(ss[i]) && |ss[i].calls| == |ss[i].killed| == procs
    ensures !ss[i].ring.readopen && !ss[i].ring.writeopen ==> forall p :: 0 <= p < procs ==> ss[i].calls[p] == Away
    ensures ReaderSleeps(ss[i]) ==> forall p :: 0 <= p < procs && GivesUp(ss[i], p) ==> ss[i].killed[p]
  {
    if i == 0 {
    } else {
      RunAttended(procs, ss, steps, i - 1);
      assert Enabled(ss[i - 1], steps[i - 1]) && ss[i - 1 + 1] == Next(ss[i - 1], steps[i - 1]);
      StepAttended(ss[i - 1], steps[i - 1]);
    }
  }

  /** The condition is needed: a reader sleeps on an empty ring, a killed process fills the ring and
      gives up, and the reader sleeps on. */
  lemma KilledWriterStrandsReader() returns (ss: seq<State>, steps: seq<Step>)
    ensures Run(2, ss, steps) && var s := ss[|steps|]; s.calls == [Reading(1, true), Away] && Full(s.ring) && !Empty(s.ring)
  {
    hide PutAll;
    var bytes := seq(SIZE + 1, i => 0);
    var s0 := Boot(2);
    BootFacts(2);
    var s1 := Next(s0, Read(0, 1));
    var s2 := Next(s1, Kill(1));
    PutAllQueues(s2.ring, bytes);
    PutAllEnds(s2.ring, bytes);
    var s3 := Next(s2, Write(1, bytes));
    ss, steps := [s0, s1, s2, s3], [Read(0, 1), Kill(1), Write(1, bytes)];
    assert s3.calls == [Reading(1, true), Away];
  }

  // ---------- the code ----------

  class PipeBuffer {
    const data: array<nat>
    var nread: Counter
    var nwrite: Counter
    var readopen: bool
    var writeopen: bool

    ghost function View(): Ring
      reads this, data
    {
      Ring(data[..], nread, nwrite, readopen, writeopen)
    }

    /** `pipealloc`, as far as the pipe itself goes. */
    constructor ()
      ensures View() == Ring(View().data, 0, 0, true, true) && Pipe.Sound(View()) && Queued(View()) == []
      ensures fresh(data)
    {
      data := new nat[SIZE];
      nread, nwrite, readopen, writeopen := 0, 0, true, true;
    }

    /** The writing loop while it does not sleep, from byte `start` of `addr` on. */
    method CopyIn(addr: seq<nat>, start: nat) returns (i: nat)
      requires data.Length == SIZE && start <= |addr|
      modifies data, this`nwrite
      ensures start <= i <= |addr| && PutAll(old(View()), addr[start..]) == (View(), addr[i..])
    {
      i := start;
      while i < |addr| && nwrite != Plus(nread, SIZE)
        invariant start <= i <= |addr| && PutAll(old(View()), addr[start..]) == PutAll(View(), addr[i..])
      {
        ghost var before := View();
        data[nwrite % SIZE] := addr[i];
        nwrite := Plus(nwrite, 1);
        i := i + 1;
        assert View() == PutByte(before, addr[i - 1]);
        assert addr[i - 1..][1..] == addr[i..];
      }
    }

    /** The reading loop, once there is something to read or nobody to wait for. */
    method CopyOut(n: nat) returns (addr: seq<nat>)
      requires data.Length == SIZE
      modifies this`nread
      ensures TakeAll(old(View()), n) == (View(), addr)
    {
      var i := 0;
      addr := [];
      ghost var all := TakeAll(View(), n);
      assert [] + all.1 == all.1;
      while i < n && nread != nwrite
        invariant i <= n && all.0 == TakeAll(View(), n - i).0 && all.1 == addr + TakeAll(View(), n - i).1
      {
        ghost var before, taken := View(), addr;
        addr := addr + [data[nread % SIZE]];
        nread := Plus(nread, 1);
        i := i + 1;
        assert View() == TakeByte(before);
        ghost var rest := TakeAll(View(), n - i).1;
        assert taken + ([data[before.nread % SIZE]] + rest) == addr + rest;
      }
      assert addr + [] == addr;
    }

    /** `pipeclose`; the result says that the pipe is freed. */
    method CloseEnd(writable: bool) returns (freed: bool)
      modifies this`readopen, this`writeopen
      ensures View() == if writable then old(View()).(writeopen := false) else old(View()).(readopen := false)
      ensures freed <==> !readopen && !writeopen
    {
      if writable { writeopen := false; } else { readopen := false; }
      freed := !readopen && !writeopen;
    }
  }
}
