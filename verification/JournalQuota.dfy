/**
What `begin_op` reserves: `MAXOPBLOCKS` blocks for every operation, against `LOGSIZE`.
*/
module JournalQuota {
  import opened Base
  import opened Journal
  import opened JournalProofs
  import opened JournalRuns

  // ---------- what operations within their quota may still log ----------

  /** An operation logs at most `MAXOPBLOCKS` distinct home blocks. */
  predicate WithinQuota(g: Geometry, s: State, op: nat, b: nat)
    requires op < |s.ops|
  {
    |s.ops[op] + {b}| <= g.maxOpBlocks
  }

  /** The log blocks that operations under way may still use. */
  ghost function Reserve(ops: seq<set<nat>>, max: nat): int {
    if ops == [] then 0 else max - |ops[0]| + Reserve(ops[1..], max)
  }

  /** Every operation under way is within its quota, and the log has room for what they may still log. */
  ghost predicate Reserved(g: Geometry, s: State) {
    && (forall k :: 0 <= k < |s.ops| ==> |s.ops[k]| <= g.maxOpBlocks)
    && |s.lh| + Reserve(s.ops, g.maxOpBlocks) <= g.logSize
  }

  /** A write, if the step is one, keeps its operation within the quota. */
  ghost predicate Frugal(g: Geometry, s: State, step: Step) {
    step.Write? && step.op < |s.ops| ==> WithinQuota(g, s, step.op, step.block)
  }

  lemma {:induction false} ReserveAtMost(ops: seq<set<nat>>, max: nat)
    ensures Reserve(ops, max) <= |ops| * max
  {
    if ops == [] {
    } else {
      ReserveAtMost(ops[1..], max);
      assert |ops| * max == max + (|ops| - 1) * max;
    }
  }

  lemma {:induction false} ReserveNonNegative(ops: seq<set<nat>>, max: nat)
    requires forall k :: 0 <= k < |ops| ==> |ops[k]| <= max
    ensures Reserve(ops, max) >= 0
  {
    if ops == [] {
    } else {
      ReserveNonNegative(ops[1..], max);
    }
  }

  lemma {:induction false} ReserveAppend(a: seq<set<nat>>, b: seq<set<nat>>, max: nat)
    ensures Reserve(a + b, max) == Reserve(a, max) + Reserve(b, max)
  {
    if a == [] {
      assert a + b == b;
    } else {
      assert (a + b)[1..] == a[1..] + b;
      ReserveAppend(a[1..], b, max);
    }
  }

  lemma ReserveAt(ops: seq<set<nat>>, k: nat, max: nat)
    requires k < |ops|
    ensures Reserve(ops, max) == Reserve(ops[..k], max) + max - |ops[k]| + Reserve(ops[k + 1..], max)
  {
    assert ops == ops[..k] + (([ops[k]]) + ops[k + 1..]);
    ReserveAppend(ops[..k], [ops[k]] + ops[k + 1..], max);
    ReserveAppend([ops[k]], ops[k + 1..], max);
    assert Reserve([ops[k]], max) == max - |ops[k]| + Reserve([ops[k]][1..], max);
  }

  lemma BeginReserve(g: Geometry, s: State)
    requires Reserved(g, s) && MayBegin(g, s)
    ensures Reserved(g, s.(ops := s.ops + [{}]))
  {
    ReserveAppend(s.ops, [{}], g.maxOpBlocks);
    assert Reserve([{}], g.maxOpBlocks) == g.maxOpBlocks + Reserve([{}][1..], g.maxOpBlocks);
    ReserveAtMost(s.ops, g.maxOpBlocks);
    assert (|s.ops| + 1) * g.maxOpBlocks == |s.ops| * g.maxOpBlocks + g.maxOpBlocks;
  }

  lemma WriteReserve(g: Geometry, s: State, op: nat, b: nat, data: Block)
    requires Inv(g, s) && Reserved(g, s) && op < |s.ops| && WithinQuota(g, s, op, b)
    ensures Reserved(g, DoWrite(s, op, b, data))
  {
    ReserveAt(s.ops, op, g.maxOpBlocks);
    var ops := s.ops[op := s.ops[op] + {b}];
    ReserveAt(ops, op, g.maxOpBlocks);
    assert ops[..op] == s.ops[..op] && ops[op + 1..] == s.ops[op + 1..];
    if b !in s.lh {
      assert b !in Members(s.lh);
      assert |s.ops[op] + {b}| == |s.ops[op]| + 1;
    } else {
      CardSubset(s.ops[op], s.ops[op] + {b});
    }
  }

  lemma {:induction false} EndReserve(ops: seq<set<nat>>, op: nat, max: nat)
    requires op < |ops| && |ops[op]| <= max
    ensures Reserve(ops[..op] + ops[op + 1..], max) <= Reserve(ops, max)
  {
    ReserveAt(ops, op, max);
    ReserveAppend(ops[..op], ops[op + 1..], max);
  }

  /** Steps within the quota keep the reservation. */
  lemma NextReserved(g: Geometry, s: State, step: Step)
    requires Inv(g, s) && Reserved(g, s) && Frugal(g, s, step) && Next(g, s, step).Ok?
    ensures Reserved(g, Next(g, s, step).next)
  {
    hide Reserve, WithinQuota, Recovered, Listed, CacheOk, PhaseOk, Distinct;
    NextRefines(g, s, step);
    match step
    case Begin => BeginReserve(g, s);
    case Write(op, b, data) => WriteReserve(g, s, op, b, data);
    case End(op) => EndReserve(s.ops, op, g.maxOpBlocks);
    case Read(_) =>
    case Evict(_) =>
    case Advance => NoneReserved(g, Next(g, s, step).next);
    case Crash => NoneReserved(g, Next(g, s, step).next);
  }

  lemma NoneReserved(g: Geometry, s: State)
    requires Inv(g, s) && s.ops == []
    ensures Reserved(g, s)
  {
  }

  /** A run in which every operation keeps within `MAXOPBLOCKS`. */
  ghost predicate FrugalRun(g: Geometry, disk: seq<Block>, ss: seq<State>, steps: seq<Step>) {
    && Run(g, disk, ss, steps)
    && forall i {:trigger steps[i]} :: 0 <= i < |steps| ==> Frugal(g, ss[i], steps[i])
  }

  lemma {:induction false} RunReserved(g: Geometry, disk: seq<Block>, ss: seq<State>, steps: seq<Step>, i: nat)
    requires FrugalRun(g, disk, ss, steps) && i <= |steps|
    ensures Reserved(g, ss[i])
  {
    hide Next, Reserved, Frugal, Inv;
    RunInv(g, disk, ss, steps, i);
    if i == 0 {
      BootInv(g, disk);
      NoneReserved(g, ss[0]);
    } else {
      RunReserved(g, disk, ss, steps, i - 1);
      RunInv(g, disk, ss, steps, i - 1);
      assert Next(g, ss[i - 1], steps[i - 1]) == Ok(ss[i - 1 + 1]);
      NextReserved(g, ss[i - 1], steps[i - 1]);
    }
  }

  // ---------- when the log is full ----------

  /** When the region holds `LOGSIZE` blocks besides its header, a full log means that every
      operation under way has used up its reservation. */
  lemma FullMeansUsedUp(g: Geometry, s: State, op: nat)
    requires Inv(g, s) && Reserved(g, s) && op < |s.ops| && g.logSize < g.logBlocks && TooBig(g, s)
    ensures |s.lh| == g.logSize && |s.ops[op]| == g.maxOpBlocks
  {
    ReserveAt(s.ops, op, g.maxOpBlocks);
    ReserveNonNegative(s.ops[..op], g.maxOpBlocks);
    ReserveNonNegative(s.ops[op + 1..], g.maxOpBlocks);
  }

  /** A proper write by an operation with blocks left in its reservation. */
  ghost predicate Entitled(g: Geometry, s: State, step: Step) {
    && step.Write? && step.op < |s.ops| && IsHome(g, step.block) && |step.data| == g.words
    && |s.ops[step.op]| < g.maxOpBlocks
  }

  /** In no state of any run of operations within their quota does such a write panic. */
  ghost predicate NeverFull(g: Geometry) {
    forall disk, ss, steps, step :: FrugalRun(g, disk, ss, steps) && Entitled(g, ss[|steps|], step) ==>
      Next(g, ss[|steps|], step) != Panic
  }
}
