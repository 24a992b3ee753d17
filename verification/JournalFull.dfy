/**
When the log runs full: exactly which sizes of the log keep operations within their quota from the
panic of `log_write`, which checks against `LOGSIZE` and the log region that `mkfs` laid out.
*/
module JournalFull {
  import opened Base
  import opened Journal
  import opened JournalProofs
  import opened JournalRuns
  import opened JournalQuota

  /** Two operations can be under way at once. */
  predicate Pairs(g: Geometry) { 2 * g.maxOpBlocks <= g.logSize }

  /** The most blocks that operations within their quota can log between two commits: all of `LOGSIZE`
      if two can be under way, since short ones can come and go beside a long one; `MAXOPBLOCKS` if one
      can; and none if not even one can begin. */
  function MostLogged(g: Geometry): nat {
    if Pairs(g) then g.logSize else if g.maxOpBlocks <= g.logSize then g.maxOpBlocks else 0
  }

  // ---------- one operation at a time ----------

  /** At most one operation is under way, and all that is logged is its. */
  ghost predicate Lone(s: State) {
    |s.ops| <= 1 && (s.phase == Idle ==> |s.lh| <= if s.ops == [] then 0 else |s.ops[0]|)
  }

  lemma NextLone(g: Geometry, s: State, step: Step)
    requires !Pairs(g) && Inv(g, s) && Lone(s) && Next(g, s, step).Ok?
    ensures Lone(Next(g, s, step).next)
  {
    hide Recovered, Listed, CacheOk, Distinct;
    NextRefines(g, s, step);
    assert |s.ops| == 1 ==> (|s.ops| + 1) * g.maxOpBlocks == 2 * g.maxOpBlocks;
    match step
    case Begin =>
    case Write(op, b, data) => WriteLone(g, s, op, b, data);
    case _ =>
  }

  lemma WriteLone(g: Geometry, s: State, op: nat, b: nat, data: Block)
    requires Inv(g, s) && Lone(s) && op < |s.ops|
    ensures Lone(DoWrite(s, op, b, data))
  {
    hide CacheOk, PhaseOk, Loggable;
    if b in s.lh {
      CardSubset(s.ops[0], s.ops[0] + {b});
    } else {
      assert b !in Members(s.lh);
    }
  }

  lemma {:induction false} RunLone(g: Geometry, disk: seq<Block>, ss: seq<State>, steps: seq<Step>, i: nat)
    requires !Pairs(g) && Run(g, disk, ss, steps) && i <= |steps|
    ensures Lone(ss[i])
  {
    hide Next, Inv;
    if i == 0 {
    } else {
      RunLone(g, disk, ss, steps, i - 1);
      RunInv(g, disk, ss, steps, i - 1);
      assert Next(g, ss[i - 1], steps[i - 1]) == Ok(ss[i - 1 + 1]);
      NextLone(g, ss[i - 1], steps[i - 1]);
    }
  }

  lemma LoneFacts(g: Geometry, s: State, op: nat)
    requires Inv(g, s) && Reserved(g, s) && Lone(s) && op < |s.ops|
    ensures op == 0 && |s.lh| == |s.ops[0]| <= g.maxOpBlocks <= g.logSize
  {
    hide CacheOk, PhaseOk;
    DistinctCard(s.lh);
    CardSubset(s.ops[0], Members(s.lh));
    ReserveAt(s.ops, 0, g.maxOpBlocks);
    assert Reserve(s.ops[..0], g.maxOpBlocks) == 0 == Reserve(s.ops[1..], g.maxOpBlocks);
  }

  /** The state at the end of a frugal run. */
  lemma RunEnd(g: Geometry, disk: seq<Block>, ss: seq<State>, steps: seq<Step>)
    requires FrugalRun(g, disk, ss, steps)
    ensures var s := ss[|steps|]; Inv(g, s) && Reserved(g, s) && (!Pairs(g) ==> Lone(s))
  {
    hide Next, Inv, Reserved, Lone;
    RunInv(g, disk, ss, steps, |steps|);
    RunReserved(g, disk, ss, steps, |steps|);
    if !Pairs(g) { RunLone(g, disk, ss, steps, |steps|); }
  }

  lemma RoomyLogNeverFull(g: Geometry)
    requires MostLogged(g) < g.logBlocks
    ensures NeverFull(g)
  {
    hide Inv, Reserved, Lone, Frugal;
    forall disk, ss, steps, step | FrugalRun(g, disk, ss, steps) && Entitled(g, ss[|steps|], step)
      ensures Next(g, ss[|steps|], step) != Panic
    {
      RunEnd(g, disk, ss, steps);
      var s := ss[|steps|];
      OnlyTooBigPanics(g, s, step);
      if !Pairs(g) {
        LoneFacts(g, s, step.op);
      } else if TooBig(g, s) {
        FullMeansUsedUp(g, s, step.op);
      }
    }
  }

  // ---------- filling a log region that is too small ----------

  /** The `n`th home block. */
  function HomeBlock(g: Geometry, n: nat): nat { if n < g.logStart then n else n + g.logBlocks }

  ghost function Blocks(g: Geometry, lo: nat, hi: nat): set<nat> { set n: nat | lo <= n < hi :: HomeBlock(g, n) }

  lemma {:induction false} BlocksCard(g: Geometry, lo: nat, hi: nat)
    requires lo <= hi
    ensures |Blocks(g, lo, hi)| == hi - lo
    decreases hi
  {
    if lo == hi {
      assert Blocks(g, lo, hi) == {};
    } else {
      BlocksCard(g, lo, hi - 1);
      assert Blocks(g, lo, hi) == Blocks(g, lo, hi - 1) + {HomeBlock(g, hi - 1)};
      assert HomeBlock(g, hi - 1) !in Blocks(g, lo, hi - 1);
    }
  }

  ghost function Zero(g: Geometry): Block { seq(g.words, i => 0) }

  /** There are `n` home blocks on the disk. */
  ghost predicate Spacious(g: Geometry, n: nat) { g.logBlocks + n <= g.diskBlocks }

  lemma HomeBlocks(g: Geometry, n: nat, i: nat)
    requires Spacious(g, n) && i < n
    ensures IsHome(g, HomeBlock(g, i)) && forall j: nat :: j != i ==> HomeBlock(g, j) != HomeBlock(g, i)
  {
  }

  /** How many blocks can be logged before the guard of `log_write` strikes. */
  function Limit(g: Geometry): nat { Min(g.logSize, g.logBlocks - 1) }

  /** What is logged by short operations, before two long ones share the rest. */
  function Spare(g: Geometry): nat { Max(0, g.logSize - 2 * g.maxOpBlocks) }

  /** What the operations under way have logged, when `n` blocks are. */
  ghost function OpsAt(g: Geometry, n: nat): seq<set<nat>> {
    var r, m := Spare(g), Spare(g) + g.maxOpBlocks;
    if !Pairs(g) then [Blocks(g, 0, n)]
    else if n <= r then [{}, {}]
    else [Blocks(g, r, Min(n, m)), Blocks(g, m, Max(n, m))]
  }

  /** The operation that logs block `n`: one that comes and goes, the first long one, the second. */
  function Turn(g: Geometry, n: nat): nat {
    if Pairs(g) && (n < Spare(g) || Spare(g) + g.maxOpBlocks <= n) then 1 else 0
  }

  ghost function Filling(g: Geometry, disk: seq<Block>, n: nat): State {
    State(disk, map b | b in Blocks(g, 0, n) :: Zero(g), Blocks(g, 0, n), seq(n, i requires i >= 0 => HomeBlock(g, i)),
          OpsAt(g, n), false, Idle)
  }

  ghost function FillWrite(g: Geometry, n: nat): Step { Write(Turn(g, n), HomeBlock(g, n), Zero(g)) }

  /** After that write. */
  ghost function Filled1(g: Geometry, disk: seq<Block>, n: nat): State {
    var k, ops := Turn(g, n), OpsAt(g, n);
    Filling(g, disk, n + 1).(ops := ops[k := ops[k] + {HomeBlock(g, n)}])
  }

  lemma BlocksSnoc(g: Geometry, lo: nat, n: nat)
    requires lo <= n
    ensures Blocks(g, lo, n + 1) == Blocks(g, lo, n) + {HomeBlock(g, n)}
  {
  }

  lemma OpsStep(g: Geometry, n: nat)
    requires Spare(g) <= n < MostLogged(g)
    ensures var k, ops := Turn(g, n), OpsAt(g, n); ops[k := ops[k] + {HomeBlock(g, n)}] == OpsAt(g, n + 1)
  {
    var r, m := Spare(g), Spare(g) + g.maxOpBlocks;
    assert Blocks(g, r, r) == {} && Blocks(g, m, m) == {};
    if !Pairs(g) {
      BlocksSnoc(g, 0, n);
    } else if n < m {
      BlocksSnoc(g, r, n);
    } else {
      BlocksSnoc(g, m, n);
    }
  }

  lemma TurnRoom(g: Geometry, n: nat)
    requires n < MostLogged(g)
    ensures |OpsAt(g, n)[Turn(g, n)]| < g.maxOpBlocks
  {
    var r, m := Spare(g), Spare(g) + g.maxOpBlocks;
    if !Pairs(g) {
      BlocksCard(g, 0, n);
    } else if n > r {
      if n < m { BlocksCard(g, r, n); } else { BlocksCard(g, m, n); }
    }
  }

  lemma FillingInRange(g: Geometry, disk: seq<Block>, n: nat)
    requires Spacious(g, g.logBlocks) && IsDisk(g, disk) && n <= Limit(g)
    ensures InRange(g, Filling(g, disk, n))
  {
    hide OpsAt;
    var s := Filling(g, disk, n);
    forall m: nat | m < g.logBlocks ensures IsHome(g, HomeBlock(g, m)) { HomeBlocks(g, g.logBlocks, m); }
    assert g.logStart !in s.cache;
  }

  lemma FillEntitled(g: Geometry, disk: seq<Block>, n: nat)
    requires Spacious(g, g.logBlocks) && n < MostLogged(g) && n < g.logBlocks
    ensures Entitled(g, Filling(g, disk, n), FillWrite(g, n)) && Frugal(g, Filling(g, disk, n), FillWrite(g, n))
  {
    hide Blocks;
    HomeBlocks(g, g.logBlocks, n);
    TurnRoom(g, n);
    var share := OpsAt(g, n)[Turn(g, n)];
    assert |share + {HomeBlock(g, n)}| <= |share| + 1;
  }

  lemma FillWrites(g: Geometry, disk: seq<Block>, n: nat)
    requires Spacious(g, g.logBlocks) && n < Limit(g)
    ensures DoWrite(Filling(g, disk, n), Turn(g, n), HomeBlock(g, n), Zero(g)) == Filled1(g, disk, n)
  {
    hide OpsAt, Blocks, Zero;
    var s, t, b := Filling(g, disk, n), Filled1(g, disk, n), HomeBlock(g, n);
    OpsSize(g, n);
    HomeBlocks(g, g.logBlocks, n);
    BlocksSnoc(g, 0, n);
    var u := DoWrite(s, Turn(g, n), b, Zero(g));
    assert b !in s.lh;
    assert u.lh == t.lh;
    assert u.cache == t.cache;
  }

  lemma OpsSize(g: Geometry, n: nat)
    ensures |OpsAt(g, n)| == (if Pairs(g) then 2 else 1) && Turn(g, n) < |OpsAt(g, n)|
  {
  }

  lemma FillStep(g: Geometry, disk: seq<Block>, n: nat)
    requires Spacious(g, g.logBlocks) && IsDisk(g, disk) && n < MostLogged(g) && n < g.logBlocks
    ensures Next(g, Filling(g, disk, n), FillWrite(g, n)) == if n < Limit(g) then Ok(Filled1(g, disk, n)) else Panic
  {
    hide DoWrite, OpsAt, Blocks, InRange, Filled1;
    FillingInRange(g, disk, n);
    FillEntitled(g, disk, n);
    if n < Limit(g) { FillWrites(g, disk, n); }
  }

  lemma ExtendFrugal(g: Geometry, disk: seq<Block>, ss: seq<State>, steps: seq<Step>, step: Step, t: State)
    requires FrugalRun(g, disk, ss, steps) && Next(g, ss[|steps|], step) == Ok(t) && Frugal(g, ss[|steps|], step)
    ensures FrugalRun(g, disk, ss + [t], steps + [step])
  {
    hide Next, Boot, Frugal;
    Extend(g, disk, ss, steps, step, t);
    var ss', steps' := ss + [t], steps + [step];
    forall i {:trigger steps'[i]} | 0 <= i < |steps'| ensures Frugal(g, ss'[i], steps'[i]) {
      if i < |steps| { assert Frugal(g, ss[i], steps[i]); }
    }
  }

  lemma BootFill(g: Geometry, disk: seq<Block>) returns (ss: seq<State>, steps: seq<Step>)
    requires FreshDisk(g, disk)
    ensures FrugalRun(g, disk, ss, steps) && IsDisk(g, ss[|steps|].disk)
    ensures ss[|steps|] == State(ss[|steps|].disk, map[], {}, [], [], false, Idle) && InRange(g, ss[|steps|])
  {
    var s0 := Boot(g, disk);
    ss, steps := [s0], [];
    var s1 := WriteHead(g, s0, [], Idle);
    assert Next(g, s0, Advance) == Ok(s1);
    ExtendFrugal(g, disk, ss, steps, Advance, s1);
    ss, steps := ss + [s1], steps + [Advance];
    var s2 := s1.(cache := map[]);
    assert s1.cache - {g.logStart} == map[];
    assert Next(g, s1, Evict(g.logStart)) == Ok(s2);
    ExtendFrugal(g, disk, ss, steps, Evict(g.logStart), s2);
    ss, steps := ss + [s2], steps + [Evict(g.logStart)];
  }

  /** One operation begins, or two, on an empty log. */
  lemma StartFilling(g: Geometry, disk: seq<Block>) returns (ss: seq<State>, steps: seq<Step>)
    requires g.maxOpBlocks <= g.logSize && FreshDisk(g, disk)
    ensures FrugalRun(g, disk, ss, steps) && IsDisk(g, ss[|steps|].disk) && ss[|steps|] == Filling(g, ss[|steps|].disk, 0)
  {
    hide Filling;
    ss, steps := BootFill(g, disk);
    var s2 := ss[|steps|];
    var s3 := s2.(ops := [{}]);
    assert Next(g, s2, Begin) == Ok(s3);
    ExtendFrugal(g, disk, ss, steps, Begin, s3);
    ss, steps := ss + [s3], steps + [Begin];
    FillingStart(g, s2.disk);
    if Pairs(g) {
      var s4 := s3.(ops := [{}, {}]);
      assert (|s3.ops| + 1) * g.maxOpBlocks == 2 * g.maxOpBlocks;
      assert Next(g, s3, Begin) == Ok(s4);
      ExtendFrugal(g, disk, ss, steps, Begin, s4);
      ss, steps := ss + [s4], steps + [Begin];
    }
  }

  lemma FillingDisk(g: Geometry, disk: seq<Block>, n: nat)
    ensures Filling(g, disk, n).disk == disk
  {
  }

  lemma FillingStart(g: Geometry, disk: seq<Block>)
    ensures Filling(g, disk, 0) == State(disk, map[], {}, [], if Pairs(g) then [{}, {}] else [{}], false, Idle)
  {
    assert Blocks(g, 0, 0) == {};
  }

  /** A short operation ends and the next begins. */
  lemma Replaced(g: Geometry, disk: seq<Block>, n: nat) returns (t: State)
    requires Spacious(g, g.logBlocks) && IsDisk(g, disk) && n < Limit(g) && Pairs(g) && n < Spare(g)
    ensures Next(g, Filled1(g, disk, n), End(1)) == Ok(t) && Next(g, t, Begin) == Ok(Filling(g, disk, n + 1))
  {
    FillingInRange(g, disk, n + 1);
    hide InRange, Blocks;
    var s := Filled1(g, disk, n);
    assert {} + {HomeBlock(g, n)} == {HomeBlock(g, n)} && OpsAt(g, n) == [{}, {}] && Turn(g, n) == 1;
    assert s.ops == [{}, {HomeBlock(g, n)}];
    t := Filling(g, disk, n + 1).(ops := [{}]);
    assert s.ops[..1] + s.ops[2..] == [{}];
    RangeSame(g, Filling(g, disk, n + 1), s);
    RangeSame(g, Filling(g, disk, n + 1), t);
    assert (|t.ops| + 1) * g.maxOpBlocks == 2 * g.maxOpBlocks;
    assert t.ops + [{}] == [{}, {}] == OpsAt(g, n + 1);
  }

  lemma RangeSame(g: Geometry, s: State, t: State)
    requires InRange(g, s) && t == s.(ops := t.ops)
    ensures InRange(g, t)
  {
  }

  lemma FillOne(g: Geometry, disk: seq<Block>, d: seq<Block>, ss: seq<State>, steps: seq<Step>, n: nat)
      returns (ss': seq<State>, steps': seq<Step>)
    requires Spacious(g, g.logBlocks) && n < MostLogged(g) && n < Limit(g) && IsDisk(g, d)
    requires FrugalRun(g, disk, ss, steps) && ss[|steps|] == Filling(g, d, n)
    ensures FrugalRun(g, disk, ss', steps') && ss'[|steps'|] == Filling(g, d, n + 1)
  {
    hide Next, Boot, Filling, FillWrite, OpsAt, Filled1;
    FillStep(g, d, n);
    FillEntitled(g, d, n);
    ExtendFrugal(g, disk, ss, steps, FillWrite(g, n), Filled1(g, d, n));
    ss', steps' := ss + [Filled1(g, d, n)], steps + [FillWrite(g, n)];
    if Pairs(g) && n < Spare(g) {
      var t := Replaced(g, d, n);
      ExtendFrugal(g, disk, ss', steps', End(1), t);
      ss', steps' := ss' + [t], steps' + [End(1)];
      ExtendFrugal(g, disk, ss', steps', Begin, Filling(g, d, n + 1));
      ss', steps' := ss' + [Filling(g, d, n + 1)], steps' + [Begin];
    } else {
      FilledNext(g, d, n);
    }
  }

  lemma FilledNext(g: Geometry, disk: seq<Block>, n: nat)
    requires n < MostLogged(g) && (Pairs(g) ==> Spare(g) <= n)
    ensures Filled1(g, disk, n) == Filling(g, disk, n + 1)
  {
    hide OpsAt;
    OpsStep(g, n);
  }

  lemma {:induction false} Fill(g: Geometry, disk: seq<Block>, n: nat) returns (ss: seq<State>, steps: seq<Step>)
    requires Spacious(g, g.logBlocks) && FreshDisk(g, disk) && g.maxOpBlocks <= g.logSize
    requires n <= MostLogged(g) && n <= Limit(g)
    ensures FrugalRun(g, disk, ss, steps) && IsDisk(g, ss[|steps|].disk) && ss[|steps|] == Filling(g, ss[|steps|].disk, n)
  {
    hide Next, Boot, Filling, FillWrite, FreshDisk;
    if n == 0 {
      ss, steps := StartFilling(g, disk);
    } else {
      ss, steps := Fill(g, disk, n - 1);
      var d := ss[|steps|].disk;
      ss, steps := FillOne(g, disk, d, ss, steps, n - 1);
      FillingDisk(g, d, n);
    }
  }

  ghost function ZeroDisk(g: Geometry): (disk: seq<Block>)
    ensures FreshDisk(g, disk)
  {
    seq(g.diskBlocks, b => Zero(g))
  }

  lemma SmallLogRunsFull(g: Geometry)
    requires Spacious(g, g.logBlocks) && g.logBlocks <= MostLogged(g)
    ensures !NeverFull(g)
  {
    hide Next, Filling, FillWrite, MostLogged, Entitled, Frugal;
    var n := g.logBlocks - 1;
    MostFits(g);
    var ss, steps := Fill(g, ZeroDisk(g), n);
    FillStep(g, ss[|steps|].disk, n);
    FillEntitled(g, ss[|steps|].disk, n);
  }

  lemma MostFits(g: Geometry)
    ensures MostLogged(g) <= g.logSize && (0 < MostLogged(g) ==> g.maxOpBlocks <= g.logSize)
  {
  }

  /** On a disk with as many home blocks as the log has blocks, operations that keep within their
      reservation never run the log full exactly when the log region is larger than the most that they
      can log. */
  lemma NeverFullExactly(g: Geometry)
    requires Spacious(g, g.logBlocks)
    ensures NeverFull(g) <==> MostLogged(g) < g.logBlocks
  {
    if MostLogged(g) < g.logBlocks { RoomyLogNeverFull(g); } else { SmallLogRunsFull(g); }
  }

  /** `mkfs` makes the region just `LOGSIZE` blocks, header included: one block short. */
  lemma ShippedLogRunsFull()
    ensures !NeverFull(Sizes(2000, 2, 30, 128, 30, 10))
  {
    NeverFullExactly(Sizes(2000, 2, 30, 128, 30, 10));
  }

  // ---------- absorbed writes ----------

  /** In no state of any run does a write panic that keeps its operation within `MAXOPBLOCKS`
      distinct blocks, be they new or logged already. */
  ghost predicate QuotaSuffices(g: Geometry) {
    forall disk, ss, steps, op: nat, b, data | QuotaWrite(g, disk, ss, steps, op, b, data) ::
      Next(g, ss[|steps|], Write(op, b, data)) != Panic
  }

  ghost predicate QuotaWrite(g: Geometry, disk: seq<Block>, ss: seq<State>, steps: seq<Step>, op: nat, b: nat, data: Block) {
    && FrugalRun(g, disk, ss, steps) && IsHome(g, b) && |data| == g.words
    && op < |ss[|steps|].ops| && WithinQuota(g, ss[|steps|], op, b)
  }

  /** The first block of the first long operation, logged again on a log as full as it gets. */
  lemma Relog(g: Geometry, disk: seq<Block>)
    requires Spacious(g, g.logBlocks) && IsDisk(g, disk) && 0 < MostLogged(g) < g.logBlocks
    requires g.logSize <= MostLogged(g) || g.logBlocks <= MostLogged(g) + 1
    ensures var s, b := Filling(g, disk, MostLogged(g)), HomeBlock(g, Spare(g));
      IsHome(g, b) && 0 < |s.ops| && WithinQuota(g, s, 0, b) && Next(g, s, Write(0, b, Zero(g))) == Panic
  {
    var n, r := MostLogged(g), Spare(g);
    FillingInRange(g, disk, n);
    HomeBlocks(g, g.logBlocks, r);
    var share := Blocks(g, r, r + g.maxOpBlocks);
    BlocksCard(g, r, r + g.maxOpBlocks);
    assert OpsAt(g, n)[0] == share;
    assert share + {HomeBlock(g, r)} == share;
  }

  lemma QuotaFails(g: Geometry)
    requires Spacious(g, g.logBlocks) && g.maxOpBlocks <= g.logSize
    requires g.logSize <= MostLogged(g) || g.logBlocks <= MostLogged(g) + 1
    ensures !QuotaSuffices(g)
  {
    hide Next, Filling, Blocks, WithinQuota;
    MostFits(g);
    var disk := ZeroDisk(g);
    if g.logBlocks <= MostLogged(g) {
      var n := g.logBlocks - 1;
      var ss, steps := Fill(g, disk, n);
      FillStep(g, ss[|steps|].disk, n);
      FillEntitled(g, ss[|steps|].disk, n);
      assert QuotaWrite(g, disk, ss, steps, Turn(g, n), HomeBlock(g, n), Zero(g));
    } else {
      var ss, steps := Fill(g, disk, MostLogged(g));
      Relog(g, ss[|steps|].disk);
      assert QuotaWrite(g, disk, ss, steps, 0, HomeBlock(g, Spare(g)), Zero(g));
    }
  }

  lemma QuotaHolds(g: Geometry)
    requires g.logSize < g.maxOpBlocks || (MostLogged(g) < g.logSize && MostLogged(g) + 1 < g.logBlocks)
    ensures QuotaSuffices(g)
  {
    hide Inv, Reserved, Lone, Frugal;
    forall disk, ss, steps, op: nat, b, data | QuotaWrite(g, disk, ss, steps, op, b, data)
      ensures Next(g, ss[|steps|], Write(op, b, data)) != Panic
    {
      RunEnd(g, disk, ss, steps);
      OnlyTooBigPanics(g, ss[|steps|], Write(op, b, data));
      LoneFacts(g, ss[|steps|], op);
    }
  }

  /** The guard of `log_write` strikes before the search for a block to absorb. So the quota suffices
      exactly if no operation can begin at all, or only one can at a time and the log and its region
      both have a block more than it may log: with two, writing a logged block again panics on a full
      log, however large the region. */
  lemma QuotaSufficesExactly(g: Geometry)
    requires Spacious(g, g.logBlocks)
    ensures QuotaSuffices(g) <==>
      g.logSize < g.maxOpBlocks || (MostLogged(g) < g.logSize && MostLogged(g) + 1 < g.logBlocks)
  {
    if g.logSize < g.maxOpBlocks || (MostLogged(g) < g.logSize && MostLogged(g) + 1 < g.logBlocks) {
      QuotaHolds(g);
    } else {
      QuotaFails(g);
    }
  }
}
