/**
Exact results about the queues: where a depleted level and a swap put every process and in which
order, that waiting processes only ever move forward, and the tick accounting of an epoch.
*/
module RsdlOrder {
  import opened Base
  import opened Rsdl
  import opened RsdlInvariant
  import opened RsdlRuns
  import opened RsdlPanics

  // ---------- where processes land ----------

  /** The processes of `ps` with default level `d`, in order. */
  function WithDefault(procs: seq<Proc>, ps: seq<nat>, d: nat): seq<nat>
    requires Slots(ps, |procs|)
  {
    if ps == [] then []
    else (if procs[ps[0]].defaultLevel == d then [ps[0]] else []) + WithDefault(procs, ps[1..], d)
  }

  /** `ls` with those of `ps` whose default level is `d` appended to each level `d`. */
  function Sorted(ls: seq<Level>, procs: seq<Proc>, ps: seq<nat>): (r: seq<Level>)
    requires Slots(ps, |procs|)
    ensures |r| == |ls|
    ensures forall d :: 0 <= d < |ls| ==> r[d] == Level(ls[d].ticksLeft, ls[d].queue + WithDefault(procs, ps, d))
  {
    seq(|ls|, d requires 0 <= d < |ls| => Level(ls[d].ticksLeft, ls[d].queue + WithDefault(procs, ps, d)))
  }

  lemma SortedNone(ls: seq<Level>, procs: seq<Proc>)
    ensures Sorted(ls, procs, []) == ls
  {
    assert forall d :: 0 <= d < |ls| ==> Sorted(ls, procs, [])[d] == ls[d];
  }

  lemma SortedStep(ls: seq<Level>, procs: seq<Proc>, ps: seq<nat>)
    requires ps != [] && Slots(ps, |procs|) && procs[ps[0]].defaultLevel < |ls|
    ensures Sorted(Append(ls, procs[ps[0]].defaultLevel, ps[0]), procs, ps[1..]) == Sorted(ls, procs, ps)
  {
    forall d | 0 <= d < |ls|
      ensures Append(ls, procs[ps[0]].defaultLevel, ps[0])[d].queue + WithDefault(procs, ps[1..], d)
        == ls[d].queue + WithDefault(procs, ps, d)
    {
      WithDefaultStep(ls[d].queue, procs, ps, d);
    }
  }

  lemma WithDefaultStep(q: seq<nat>, procs: seq<Proc>, ps: seq<nat>, d: nat)
    requires ps != [] && Slots(ps, |procs|)
    ensures (if procs[ps[0]].defaultLevel == d then q + [ps[0]] else q) + WithDefault(procs, ps[1..], d)
      == q + WithDefault(procs, ps, d)
  {
  }

  /** With quantum on every level, everyone lands on the default level. */
  lemma {:induction false} PlaceAllByDefault(c: Config, t: Table, ps: seq<nat>)
    requires Sized(c, t) && Slots(ps, c.nproc) && forall k :: 0 <= k < c.levels ==> t.active[k].ticksLeft > 0
    ensures PlaceAll(c, t, ps, 0) == t.(active := Sorted(t.active, t.procs, ps))
    decreases |ps|
  {
    if ps == [] {
      SortedNone(t.active, t.procs);
    } else {
      var d := t.procs[ps[0]].defaultLevel;
      assert Place(c, t, ps[0], 0) == t.(active := Append(t.active, d, ps[0]));
      PlaceAllByDefault(c, Place(c, t, ps[0], 0), ps[1..]);
      SortedStep(t.active, t.procs, ps);
    }
  }

  /** With no quantum from the floor on, everyone lands on the default level of the expired set. */
  lemma {:induction false} PlaceAllExpired(c: Config, t: Table, ps: seq<nat>, floor: nat)
    requires Sized(c, t) && Slots(ps, c.nproc) && NextWithQuantum(t.active, floor) == None
    requires forall i :: 0 <= i < |ps| ==> t.procs[ps[i]].defaultLevel <= floor
    ensures PlaceAll(c, t, ps, floor) == t.(expired := Sorted(t.expired, t.procs, ps))
    decreases |ps|
  {
    if ps == [] {
      SortedNone(t.expired, t.procs);
    } else {
      PlaceAllExpired(c, Place(c, t, ps[0], floor), ps[1..], floor);
      SortedStep(t.expired, t.procs, ps);
    }
  }

  lemma NextAfterAppend(ls: seq<Level>, k: nat, p: nat, from: nat)
    requires k < |ls|
    ensures NextWithQuantum(Append(ls, k, p), from) == NextWithQuantum(ls, from)
    decreases |ls| - from
  {
    if from >= |ls| {
    } else {
      NextAfterAppend(ls, k, p, from + 1);
    }
  }

  /** With quantum somewhere from the floor on, everyone lands on the first such level. */
  lemma {:induction false} PlaceAllActive(c: Config, t: Table, ps: seq<nat>, floor: nat, j: nat)
    requires Sized(c, t) && Slots(ps, c.nproc) && NextWithQuantum(t.active, floor) == Some(j)
    requires forall i :: 0 <= i < |ps| ==> t.procs[ps[i]].defaultLevel <= floor
    ensures PlaceAll(c, t, ps, floor) ==
      t.(active := t.active[j := Level(t.active[j].ticksLeft, t.active[j].queue + ps)])
    decreases |ps|
  {
    if ps == [] {
      assert t.active[j].queue + ps == t.active[j].queue;
      assert t.active[j := Level(t.active[j].ticksLeft, t.active[j].queue)] == t.active;
    } else {
      var u := Place(c, t, ps[0], floor);
      assert u == t.(active := Append(t.active, j, ps[0]));
      NextAfterAppend(t.active, j, ps[0], floor);
      PlaceAllActive(c, u, ps[1..], floor, j);
      assert (t.active[j].queue + [ps[0]]) + ps[1..] == t.active[j].queue + ps;
      assert PlaceAll(c, u, ps[1..], floor).active == t.active[j := Level(t.active[j].ticksLeft, t.active[j].queue + ps)];
    }
  }

  /** What a depleted level leaves behind: itself empty and its processes refilled. */
  lemma DepletionLeft(c: Config, t: Table, p: nat, k: nat)
    requires Returning(c, t, p, k) && t.active[k].ticksLeft <= 0
    ensures var left := Left(c, t, k, [], t.active[k].queue);
      && Sized(c, left) && Deplete(c, t, p, k) == PlaceAll(c, left, Movers(t.procs, t.active[k].queue, p), k + 1)
      && left == Table(Refill(c, t.procs, t.active[k].queue), t.active[k := Level(0, [])], t.expired)
      && NextWithQuantum(left.active, k + 1) == NextWithQuantum(t.active, k + 1)
      && (forall i :: 0 <= i < c.nproc ==> left.procs[i].defaultLevel == t.procs[i].defaultLevel)
  {
    hide Refill, PlaceAll, NextWithQuantum, Partition, ExpiredOk;
    var left := Left(c, t, k, [], t.active[k].queue);
    RefillSized(c, t, t.active[k].queue);
    RefillAt(c, t.procs, t.active[k].queue);
    NextBelow(t.active, left.active, k);
  }

  /** A depleted level ends empty and its processes, refilled, go in order to the tail of the first
      lower active level with quantum. */
  lemma DepletionToActive(c: Config, t: Table, p: nat, k: nat, j: nat)
    requires Returning(c, t, p, k) && t.active[k].ticksLeft <= 0 && NextWithQuantum(t.active, k + 1) == Some(j)
    ensures Deplete(c, t, p, k) ==
      Table(Refill(c, t.procs, t.active[k].queue),
            t.active[k := Level(0, [])][j := Level(t.active[j].ticksLeft, t.active[j].queue + Movers(t.procs, t.active[k].queue, p))],
            t.expired)
  {
    hide ActiveOk, ExpiredOk, Partition;
    DepletionLeft(c, t, p, k);
    MoversStand(c, t, p, k);
    PlaceAllActive(c, Left(c, t, k, [], t.active[k].queue), Movers(t.procs, t.active[k].queue, p), k + 1, j);
  }

  /** With no quantum below, each goes to the tail of its default level in the expired set. */
  lemma DepletionToExpired(c: Config, t: Table, p: nat, k: nat)
    requires Returning(c, t, p, k) && t.active[k].ticksLeft <= 0 && NextWithQuantum(t.active, k + 1) == None
    ensures Deplete(c, t, p, k) ==
      Table(Refill(c, t.procs, t.active[k].queue), t.active[k := Level(0, [])],
            Sorted(t.expired, t.procs, Movers(t.procs, t.active[k].queue, p)))
  {
    var left, movers := Left(c, t, k, [], t.active[k].queue), Movers(t.procs, t.active[k].queue, p);
    DepletionLeft(c, t, p, k);
    MoversStand(c, t, p, k);
    PlaceAllExpired(c, left, movers, k + 1);
    SortedSame(t.expired, t.procs, left.procs, movers);
  }

  lemma MoversStand(c: Config, t: Table, p: nat, k: nat)
    requires Returning(c, t, p, k)
    ensures forall i :: 0 <= i < |Movers(t.procs, t.active[k].queue, p)| ==>
      t.procs[Movers(t.procs, t.active[k].queue, p)[i]].defaultLevel <= k
  {
    MoversAll(c, t, p, k);
    LeavesOnce(c, t, p, k);
  }

  lemma {:induction false} WithDefaultSame(a: seq<Proc>, b: seq<Proc>, ps: seq<nat>, d: nat)
    requires |a| == |b| && Slots(ps, |a|) && forall i :: 0 <= i < |a| ==> a[i].defaultLevel == b[i].defaultLevel
    ensures WithDefault(a, ps, d) == WithDefault(b, ps, d)
  {
    if ps == [] {
    } else {
      WithDefaultSame(a, b, ps[1..], d);
    }
  }

  lemma SortedSame(ls: seq<Level>, a: seq<Proc>, b: seq<Proc>, ps: seq<nat>)
    requires |a| == |b| && Slots(ps, |a|) && forall i :: 0 <= i < |a| ==> a[i].defaultLevel == b[i].defaultLevel
    ensures Sorted(ls, a, ps) == Sorted(ls, b, ps)
  {
    forall d | 0 <= d < |ls| ensures WithDefault(a, ps, d) == WithDefault(b, ps, d) { WithDefaultSame(a, b, ps, d); }
  }

  /** A swap leaves the expired set empty, every quantum full, and on each active level the old
      expired queue of that level followed by the old active processes with that default level, in
      level and queue order. */
  lemma SwapExact(c: Config, t: Table)
    requires Core(c, t, [])
    ensures Slots(Flat(t.active), c.nproc)
    ensures Swap(c, t).procs == Refill(c, t.procs, Flat(t.active))
    ensures |Swap(c, t).active| == |Swap(c, t).expired| == c.levels
    ensures forall d :: 0 <= d < c.levels ==>
      && Swap(c, t).expired[d] == Level(c.levelQuantum, [])
      && Swap(c, t).active[d] == Level(c.levelQuantum, t.expired[d].queue + WithDefault(t.procs, Flat(t.active), d))
  {
    SwapCore(c, t);
    var u, movers := Traded(c, t), Flat(t.active);
    RefillSized(c, t, movers);
    RefillAt(c, t.procs, movers);
    forall k | 0 <= k < c.levels ensures u.active[k].ticksLeft == c.levelQuantum {
      assert ExpiredOk(c, t.procs, t.expired[k], k);
    }
    PlaceAllByDefault(c, u, movers);
    SortedSame(u.active, t.procs, u.procs, movers);
  }

  // ---------- an epoch is a fixed number of ticks ----------

  ghost function SumTicks(ls: seq<Level>): int {
    if ls == [] then 0 else ls[0].ticksLeft + SumTicks(ls[1..])
  }

  lemma {:induction false} SumSame(a: seq<Level>, b: seq<Level>)
    requires |a| == |b| && forall k :: 0 <= k < |a| ==> a[k].ticksLeft == b[k].ticksLeft
    ensures SumTicks(a) == SumTicks(b)
  {
    if a == [] {
    } else {
      assert forall k :: 0 <= k < |a| - 1 ==> a[1..][k].ticksLeft == b[1..][k].ticksLeft;
      SumSame(a[1..], b[1..]);
    }
  }

  lemma {:induction false} SumUpdate(ls: seq<Level>, k: nat, l: Level)
    requires k < |ls|
    ensures SumTicks(ls[k := l]) == SumTicks(ls) - ls[k].ticksLeft + l.ticksLeft
  {
    if k == 0 {
      assert ls[k := l][1..] == ls[1..];
    } else {
      SumUpdate(ls[1..], k - 1, l);
      assert ls[k := l][1..] == ls[1..][k - 1 := l];
    }
  }

  lemma {:induction false} SumFull(ls: seq<Level>, quantum: nat)
    requires forall k :: 0 <= k < |ls| ==> ls[k].ticksLeft == quantum
    ensures SumTicks(ls) == Quanta(|ls|, quantum)
  {
    if ls == [] {
    } else {
      SumFull(ls[1..], quantum);
    }
  }

  lemma {:induction false} SumNonNegative(ls: seq<Level>)
    requires forall k :: 0 <= k < |ls| ==> ls[k].ticksLeft >= 0
    ensures SumTicks(ls) >= 0
  {
    if ls == [] {
    } else {
      SumNonNegative(ls[1..]);
    }
  }

  /** The level quanta of the active set are the same. */
  ghost predicate SameTicks(t: Table, u: Table) {
    |t.active| == |u.active| && forall k :: 0 <= k < |t.active| ==> t.active[k].ticksLeft == u.active[k].ticksLeft
  }

  lemma {:induction false} PlaceAllTicks(c: Config, t: Table, ps: seq<nat>, floor: nat)
    requires Sized(c, t) && Slots(ps, c.nproc)
    ensures SameTicks(t, PlaceAll(c, t, ps, floor))
    decreases |ps|
  {
    if ps == [] {
    } else {
      PlaceAllTicks(c, Place(c, t, ps[0], floor), ps[1..], floor);
    }
  }

  lemma HandBackTicks(c: Config, t: Table, p: nat, k: nat)
    requires WellFormed(c, t) && p < c.nproc && k < c.levels
    ensures SameTicks(t, HandBack(c, t, p, k))
  {
    if t.active[k].ticksLeft <= 0 {
      RefillSized(c, t, t.active[k].queue);
      PlaceAllTicks(c, Left(c, t, k, [], t.active[k].queue), Movers(t.procs, t.active[k].queue, p), k + 1);
    }
  }

  lemma TickTicks(c: Config, s: State)
    requires Inv(c, s) && s.cpu.Running? && WellFormed(c, s.table) && CpuInRange(c, s)
    ensures SameTicks(Charge(s.table, s.cpu.proc, s.cpu.level), DoTick(c, s).table)
  {
    ChargeWellFormed(c, s.table, s.cpu.proc, s.cpu.level);
    TickedReturns(c, s);
    HandBackTicks(c, Ticked(s), s.cpu.proc, s.cpu.level);
  }

  lemma LeaveTicks(c: Config, s: State, p: Proc)
    requires WellFormed(c, s.table) && CpuInRange(c, s) && s.cpu.Running? && p.defaultLevel < c.levels
    ensures SameTicks(s.table, Leave(c, s, p).table)
  {
    assert Sized(c, WithProc(s.table, s.cpu.proc, p));
    HandBackTicks(c, WithProc(s.table, s.cpu.proc, p), s.cpu.proc, s.cpu.level);
  }

  lemma ExitTicks(c: Config, s: State)
    requires Inv(c, s) && s.cpu.Running? && s.cpu.proc != s.initproc && WellFormed(c, s.table) && CpuInRange(c, s)
    ensures SameTicks(s.table, DoExit(c, s).table)
  {
    ExitReturns(c, s);
    HandBackTicks(c, ExitTable(c, s.table, s.cpu.proc, s.initproc), s.cpu.proc, s.cpu.level);
  }

  lemma WaitTicks(c: Config, s: State)
    requires WellFormed(c, s.table) && CpuInRange(c, s) && s.cpu.Running?
    ensures SameTicks(s.table, DoWait(c, s).table)
  {
    LeaveTicks(c, s, s.table.procs[s.cpu.proc].(state := SLEEPING, chan := ProcAddr(s.cpu.proc)));
  }

  lemma StepTicks(c: Config, s: State, step: Step)
    requires Inv(c, s) && Next(c, s, step).Ok? && !IsSwap(c, s, step) && !(step == Tick && s.cpu.Running?)
    ensures SameTicks(s.table, Next(c, s, step).next.table)
  {
    hide Inv, DoExit, DoWait, Leave;
    RunningInRange(c, s);
    match step
    case Exit => ExitTicks(c, s);
    case Wait => WaitTicks(c, s);
    case Sleep(a) => LeaveTicks(c, s, s.table.procs[s.cpu.proc].(state := SLEEPING, chan := Addr(a)));
    case Yield => LeaveTicks(c, s, s.table.procs[s.cpu.proc].(state := RUNNABLE));
    case _ =>
  }

  /** A step takes from the active quanta exactly the tick it charges; only a swap restores them. */
  lemma StepConserves(c: Config, s: State, step: Step)
    requires Inv(c, s) && Next(c, s, step).Ok? && !IsSwap(c, s, step)
    ensures SumTicks(Next(c, s, step).next.table.active) + (if step == Tick && s.cpu.Running? then 1 else 0)
      == SumTicks(s.table.active)
  {
    hide Inv, DoTick;
    if step == Tick && s.cpu.Running? {
      RunningInRange(c, s);
      TickTicks(c, s);
      var k := s.cpu.level;
      SumUpdate(s.table.active, k, s.table.active[k].(ticksLeft := s.table.active[k].ticksLeft - 1));
      SumSame(Charge(s.table, s.cpu.proc, k).active, DoTick(c, s).table.active);
    } else {
      StepTicks(c, s, step);
      SumSame(s.table.active, Next(c, s, step).next.table.active);
    }
  }

  lemma SwapRestores(c: Config, s: State, step: Step)
    requires Inv(c, s) && IsSwap(c, s, step) && Next(c, s, step).Ok?
    ensures SumTicks(Next(c, s, step).next.table.active) == c.levels * c.levelQuantum
  {
    SwapExact(c, s.table);
    SumFull(Swap(c, s.table).active, c.levelQuantum);
    QuantaProduct(c.levels, c.levelQuantum);
  }

  /** The running ticks, of whatever process, in the steps from `i` up to `j`. */
  ghost function RunningTicks(ss: seq<State>, steps: seq<Step>, i: nat, j: nat): nat
    requires i <= j <= |steps| < |ss|
    decreases j
  {
    if i == j then 0
    else RunningTicks(ss, steps, i, j - 1) + if steps[j - 1] == Tick && ss[j - 1].cpu.Running? then 1 else 0
  }

  /** Ticks run and ticks left always add up, over any stretch of any run without a swap. */
  lemma {:induction false} EpochConserved(c: Config, ss: seq<State>, steps: seq<Step>, i: nat, j: nat)
    requires Run(c, ss, steps) && i <= j <= |steps| && NoSwap(c, ss, steps, i, j)
    ensures RunningTicks(ss, steps, i, j) + SumTicks(ss[j].table.active) == SumTicks(ss[i].table.active)
    decreases j
  {
    hide Next, Boot, IsSwap, SumTicks, Inv;
    if i == j {
    } else {
      EpochConserved(c, ss, steps, i, j - 1);
      RunInv(c, ss, steps, j - 1);
      assert Next(c, ss[j - 1], steps[j - 1]) == Ok(ss[j - 1 + 1]);
      StepConserves(c, ss[j - 1], steps[j - 1]);
    }
  }

  /** At boot and right after a swap the active set holds a whole epoch of ticks. */
  lemma EpochStart(c: Config, ss: seq<State>, steps: seq<Step>, i: nat)
    requires Run(c, ss, steps) && i <= |steps| && (i == 0 || IsSwap(c, ss[i - 1], steps[i - 1]))
    ensures SumTicks(ss[i].table.active) == c.levels * c.levelQuantum
  {
    if i == 0 {
      SumFull(Boot(c).table.active, c.levelQuantum);
      QuantaProduct(c.levels, c.levelQuantum);
    } else {
      RunInv(c, ss, steps, i - 1);
      assert Next(c, ss[i - 1], steps[i - 1]) == Ok(ss[i - 1 + 1]);
      SwapRestores(c, ss[i - 1], steps[i - 1]);
    }
  }

  /** Never more than a whole epoch is left. */
  lemma {:induction false} EpochAtMost(c: Config, ss: seq<State>, steps: seq<Step>, i: nat)
    requires Run(c, ss, steps) && i <= |steps|
    ensures 0 <= SumTicks(ss[i].table.active) <= c.levels * c.levelQuantum
  {
    hide Next, Boot, IsSwap;
    RunInv(c, ss, steps, i);
    LevelTicks(c, ss[i]);
    if i == 0 || IsSwap(c, ss[i - 1], steps[i - 1]) {
      EpochStart(c, ss, steps, i);
    } else {
      EpochAtMost(c, ss, steps, i - 1);
      EpochConserved(c, ss, steps, i - 1, i);
    }
  }

  lemma LevelTicks(c: Config, s: State)
    requires Inv(c, s)
    ensures SumTicks(s.table.active) >= 0
  {
    forall k | 0 <= k < c.levels ensures s.table.active[k].ticksLeft >= 0 {
      assert ActiveOk(c, s.table.procs, s.table.active[k], k);
    }
    SumNonNegative(s.table.active);
  }

  /** The epoch bound: no stretch of any run without a swap has more running ticks than the active
      quanta add up to, and from a swap on the two always add up to that exactly. */
  lemma EpochBound(c: Config, ss: seq<State>, steps: seq<Step>, i: nat, j: nat)
    requires Run(c, ss, steps) && i <= j <= |steps| && NoSwap(c, ss, steps, i, j)
    ensures RunningTicks(ss, steps, i, j) <= c.levels * c.levelQuantum
    ensures i == 0 || IsSwap(c, ss[i - 1], steps[i - 1]) ==>
      RunningTicks(ss, steps, i, j) + SumTicks(ss[j].table.active) == c.levels * c.levelQuantum
  {
    hide Next, Boot, IsSwap;
    EpochConserved(c, ss, steps, i, j);
    EpochAtMost(c, ss, steps, i);
    EpochAtMost(c, ss, steps, j);
    if i == 0 || IsSwap(c, ss[i - 1], steps[i - 1]) { EpochStart(c, ss, steps, i); }
  }

  /** A process that stays in the expired set waits there for at most one epoch of running ticks. */
  lemma ExpiredWait(c: Config, ss: seq<State>, steps: seq<Step>, p: nat, i: nat, j: nat)
    requires Run(c, ss, steps) && i <= j <= |steps|
    requires forall n :: i <= n <= j ==> p in Flat(ss[n].table.expired)
    ensures RunningTicks(ss, steps, i, j) <= c.levels * c.levelQuantum
  {
    forall n | i <= n < j ensures !IsSwap(c, ss[n], steps[n]) {
      assert p in Flat(ss[n + 1].table.expired);
      if IsSwap(c, ss[n], steps[n]) { SwapEmptiesExpired(c, ss, steps, n); }
    }
    EpochBound(c, ss, steps, i, j);
  }

  lemma {:induction false} FlatEmpty(ls: seq<Level>)
    requires forall k :: 0 <= k < |ls| ==> ls[k].queue == []
    ensures Flat(ls) == []
  {
    if ls == [] {
    } else {
      FlatEmpty(ls[1..]);
    }
  }

  lemma SwapEmptiesExpired(c: Config, ss: seq<State>, steps: seq<Step>, n: nat)
    requires Run(c, ss, steps) && n < |steps| && IsSwap(c, ss[n], steps[n])
    ensures Flat(ss[n + 1].table.expired) == []
  {
    RunInv(c, ss, steps, n);
    assert Next(c, ss[n], steps[n]) == Ok(ss[n + 1]);
    SwapExact(c, ss[n].table);
    FlatEmpty(ss[n + 1].table.expired);
  }

  // ---------- a depleted level stays empty ----------

  lemma StepTicksFall(c: Config, s: State, step: Step, k: nat)
    requires Inv(c, s) && Next(c, s, step).Ok? && !IsSwap(c, s, step) && k < c.levels
    ensures k < |Next(c, s, step).next.table.active|
    ensures Next(c, s, step).next.table.active[k].ticksLeft <= s.table.active[k].ticksLeft
  {
    hide Inv, DoTick;
    RunningInRange(c, s);
    if step == Tick && s.cpu.Running? { TickTicks(c, s); } else { StepTicks(c, s, step); }
  }

  /** An active level that is out of quantum is empty, and stays so until the next swap. */
  lemma {:induction false} DepletedStaysEmpty(c: Config, ss: seq<State>, steps: seq<Step>, k: nat, i: nat, j: nat)
    requires Run(c, ss, steps) && i <= j <= |steps| && NoSwap(c, ss, steps, i, j) && k < c.levels
    requires k < |ss[i].table.active| && ss[i].table.active[k].ticksLeft <= 0
    ensures k < |ss[j].table.active| && ss[j].table.active[k] == Level(0, [])
    decreases j
  {
    hide Next, Boot, IsSwap;
    RunInv(c, ss, steps, j);
    if i == j {
    } else {
      DepletedStaysEmpty(c, ss, steps, k, i, j - 1);
      RunInv(c, ss, steps, j - 1);
      assert Next(c, ss[j - 1], steps[j - 1]) == Ok(ss[j - 1 + 1]);
      StepTicksFall(c, ss[j - 1], steps[j - 1], k);
    }
    assert ActiveOk(c, ss[j].table.procs, ss[j].table.active[k], k);
  }

  // ---------- waiting processes only move forward ----------

  /** `p`, if it is in both queues, has not fallen back. */
  ghost predicate Forward(q: seq<nat>, r: seq<nat>, p: nat) {
    p in q && p in r ==> IndexOf(r, p) <= IndexOf(q, p)
  }

  lemma {:induction false} IndexAppend(q: seq<nat>, ps: seq<nat>, p: nat)
    requires p in q
    ensures IndexOf(q + ps, p) == IndexOf(q, p)
  {
    if q[0] == p {
    } else {
      assert (q + ps)[1..] == q[1..] + ps;
      IndexAppend(q[1..], ps, p);
    }
  }

  lemma {:induction false} IndexWithout(q: seq<nat>, x: nat, p: nat)
    requires p in q && p != x
    ensures IndexOf(Without(q, x), p) <= IndexOf(q, p)
  {
    if q[0] == p || q[0] == x {
    } else {
      IndexWithout(q[1..], x, p);
    }
  }

  /** In no queue of `u` has `p` fallen back from where it is in the same queue of `t`, and it is
      in no queue it was not in. */
  ghost predicate AllForward(t: seq<Level>, u: seq<Level>, p: nat) {
    |t| == |u| && forall k :: 0 <= k < |t| ==> Forward(t[k].queue, u[k].queue, p) && (p in u[k].queue ==> p in t[k].queue)
  }

  lemma PlaceForward(c: Config, t: Table, x: nat, floor: nat, p: nat)
    requires Sized(c, t) && x < c.nproc && p != x
    ensures AllForward(t.active, Place(c, t, x, floor).active, p)
    ensures AllForward(t.expired, Place(c, t, x, floor).expired, p)
  {
    forall k | 0 <= k < c.levels ensures p in t.active[k].queue ==> IndexOf(t.active[k].queue + [x], p) == IndexOf(t.active[k].queue, p) {
      if p in t.active[k].queue { IndexAppend(t.active[k].queue, [x], p); }
    }
    forall k | 0 <= k < c.levels ensures p in t.expired[k].queue ==> IndexOf(t.expired[k].queue + [x], p) == IndexOf(t.expired[k].queue, p) {
      if p in t.expired[k].queue { IndexAppend(t.expired[k].queue, [x], p); }
    }
  }

  lemma ForwardChain(a: seq<Level>, b: seq<Level>, d: seq<Level>, p: nat)
    requires AllForward(a, b, p) && AllForward(b, d, p)
    ensures AllForward(a, d, p)
  {
  }

  lemma {:induction false} PlaceAllForward(c: Config, t: Table, ps: seq<nat>, floor: nat, p: nat)
    requires Sized(c, t) && Slots(ps, c.nproc) && p !in ps
    ensures AllForward(t.active, PlaceAll(c, t, ps, floor).active, p)
    ensures AllForward(t.expired, PlaceAll(c, t, ps, floor).expired, p)
    decreases |ps|
  {
    if ps == [] {
    } else {
      var u := Place(c, t, ps[0], floor);
      PlaceForward(c, t, ps[0], floor, p);
      PlaceAllForward(c, u, ps[1..], floor, p);
      ForwardChain(t.active, u.active, PlaceAll(c, u, ps[1..], floor).active, p);
      ForwardChain(t.expired, u.expired, PlaceAll(c, u, ps[1..], floor).expired, p);
    }
  }

  /** Level `k` without `x`. */
  lemma WithoutForward(ls: seq<Level>, k: nat, x: nat, p: nat)
    requires k < |ls| && p != x
    ensures AllForward(ls, ls[k := Level(ls[k].ticksLeft, Without(ls[k].queue, x))], p)
  {
    WithoutMembers(ls[k].queue, x);
    if p in ls[k].queue { IndexWithout(ls[k].queue, x, p); }
  }

  /** In every queue that holds `p` before and after, it has not fallen back. */
  ghost predicate KeepsPlace(t: Table, u: Table, p: nat) {
    && |t.active| == |u.active| && |t.expired| == |u.expired|
    && (forall k :: 0 <= k < |t.active| ==> Forward(t.active[k].queue, u.active[k].queue, p))
    && (forall k :: 0 <= k < |t.expired| ==> Forward(t.expired[k].queue, u.expired[k].queue, p))
  }

  /** One that leaves the depleted queue was in no other queue to fall back in. */
  lemma DepletedForward(c: Config, t: Table, x: nat, k: nat, p: nat)
    requires Returning(c, t, x, k) && t.active[k].ticksLeft <= 0 && p in t.active[k].queue
    ensures KeepsPlace(t, Deplete(c, t, x, k), p)
  {
    hide ActiveOk, ExpiredOk, PlaceAll, Refill, Movers, Without, IndexOf, Count;
    var q := t.active[k].queue;
    var left, movers := Left(c, t, k, [], q), Movers(t.procs, q, x);
    RefillSized(c, t, q);
    PlaceAllAbove(c, left, movers, k + 1);
    ExpiredKept(c, left, movers, k + 1);
    LiveCount(t, p);
    forall j | 0 <= j < c.levels && j != k ensures p !in t.active[j].queue { TwoLevels(t.active, j, k, p); }
    NotExpired(t, k, p);
    assert Deplete(c, t, x, k).active[k] == left.active[k];
  }

  lemma DepleteForward(c: Config, t: Table, x: nat, k: nat, p: nat)
    requires Returning(c, t, x, k) && t.active[k].ticksLeft <= 0
    ensures KeepsPlace(t, Deplete(c, t, x, k), p)
  {
    hide ActiveOk, ExpiredOk, Partition, PlaceAll, Refill, Movers, Without, IndexOf;
    if p in t.active[k].queue {
      DepletedForward(c, t, x, k, p);
    } else {
      RefillSized(c, t, t.active[k].queue);
      NotMoving(c, t, x, k, p);
      PlaceAllForward(c, Left(c, t, k, [], t.active[k].queue), Movers(t.procs, t.active[k].queue, x), k + 1, p);
    }
  }

  lemma {:induction false} ExpiredKept(c: Config, t: Table, ps: seq<nat>, floor: nat)
    requires Sized(c, t) && Slots(ps, c.nproc)
    ensures |PlaceAll(c, t, ps, floor).expired| == |t.expired|
    decreases |ps|
  {
    if ps == [] {
    } else {
      ExpiredKept(c, Place(c, t, ps[0], floor), ps[1..], floor);
    }
  }

  lemma NotExpired(t: Table, k: nat, p: nat)
    requires Partition(t, []) && k < |t.active| && p in t.active[k].queue
    ensures forall j :: 0 <= j < |t.expired| ==> p !in t.expired[j].queue
  {
    MemberCount(t.active[k].queue, p);
    CountAtLeast(t.active, k, p);
    assert Count(t.active, p) + Count(t.expired, p) + multiset([])[p] <= 1;
    forall j | 0 <= j < |t.expired| ensures p !in t.expired[j].queue {
      MemberCount(t.expired[j].queue, p);
      CountAtLeast(t.expired, j, p);
    }
  }

  lemma RequeueForward(c: Config, t: Table, x: nat, k: nat, p: nat)
    requires Returning(c, t, x, k) && t.active[k].ticksLeft > 0 && p != x
    ensures KeepsPlace(t, Requeue(c, t, x, k), p)
  {
    hide ActiveOk, ExpiredOk, Partition, Place;
    RefillSized(c, t, Spent(t, x));
    if t.procs[x].state != ZOMBIE {
      var left := TakenOut(c, t, x, k);
      WithoutForward(t.active, k, x, p);
      PlaceForward(c, left, x, k + |Spent(t, x)|, p);
      ForwardChain(t.active, left.active, Requeue(c, t, x, k).active, p);
    }
  }

  lemma HandBackForward(c: Config, t: Table, x: nat, k: nat, p: nat)
    requires Returning(c, t, x, k) && p != x
    ensures KeepsPlace(t, HandBack(c, t, x, k), p)
  {
    if t.active[k].ticksLeft <= 0 { DepleteForward(c, t, x, k, p); } else { RequeueForward(c, t, x, k, p); }
  }

  lemma LeaveForward(c: Config, s: State, x: Proc, p: nat)
    requires Inv(c, s) && s.cpu.Running? && CpuInRange(c, s) && p != s.cpu.proc
    requires x.state == SLEEPING || x.state == RUNNABLE
    requires x.(state := RUNNING, chan := NoChan) == s.table.procs[s.cpu.proc].(chan := NoChan)
    ensures KeepsPlace(s.table, Leave(c, s, x).table, p)
  {
    var u := WithProc(s.table, s.cpu.proc, x);
    assert ActiveOk(c, s.table.procs, s.table.active[s.cpu.level], s.cpu.level);
    RunningReturns(c, s, u);
    HandBackForward(c, u, s.cpu.proc, s.cpu.level, p);
  }

  lemma TickForward(c: Config, s: State, p: nat)
    requires Inv(c, s) && s.cpu.Running? && WellFormed(c, s.table) && CpuInRange(c, s) && p != s.cpu.proc
    ensures KeepsPlace(s.table, DoTick(c, s).table, p)
  {
    ChargeWellFormed(c, s.table, s.cpu.proc, s.cpu.level);
    TickedReturns(c, s);
    HandBackForward(c, Ticked(s), s.cpu.proc, s.cpu.level, p);
  }

  lemma ExitForward(c: Config, s: State, p: nat)
    requires Inv(c, s) && s.cpu.Running? && s.cpu.proc != s.initproc && WellFormed(c, s.table) && CpuInRange(c, s)
    requires p != s.cpu.proc
    ensures KeepsPlace(s.table, DoExit(c, s).table, p)
  {
    var t, x := s.table, s.cpu.proc;
    var u := ExitTable(c, t, x, s.initproc);
    ExitReturns(c, s);
    HandBackForward(c, u, x, s.cpu.level, p);
    forall k | 0 <= k < c.levels ensures Forward(t.active[k].queue, u.active[k].queue, p) && (p in t.active[k].queue ==> p in u.active[k].queue) {
      WithoutMembers(t.active[k].queue, x);
      if p in t.active[k].queue { IndexWithout(t.active[k].queue, x, p); }
    }
    forall k | 0 <= k < c.levels ensures Forward(t.expired[k].queue, u.expired[k].queue, p) && (p in t.expired[k].queue ==> p in u.expired[k].queue) {
      WithoutMembers(t.expired[k].queue, x);
      if p in t.expired[k].queue { IndexWithout(t.expired[k].queue, x, p); }
    }
  }

  lemma WaitForward(c: Config, s: State, p: nat)
    requires Inv(c, s) && s.cpu.Running? && WellFormed(c, s.table) && CpuInRange(c, s) && p != s.cpu.proc
    ensures KeepsPlace(s.table, DoWait(c, s).table, p)
  {
    LeaveForward(c, s, s.table.procs[s.cpu.proc].(state := SLEEPING, chan := ProcAddr(s.cpu.proc)), p);
  }

  lemma ForkForward(c: Config, s: State, slot: nat, level: nat, p: nat)
    requires Inv(c, s) && s.cpu.Running? && slot < c.nproc && s.table.procs[slot].state == EMBRYO && level < c.levels
    requires p != slot
    ensures KeepsPlace(s.table, DoForkCommit(c, s, slot, level).table, p)
  {
    var child := s.table.procs[slot].(parent := Some(s.cpu.proc), defaultLevel := level, state := RUNNABLE);
    var u := WithProc(s.table, slot, child);
    assert Sized(c, u);
    PlaceForward(c, u, slot, level, p);
  }

  /** While it waits, a live process never falls back in its queue, whatever the step. */
  lemma StepForward(c: Config, s: State, step: Step, p: nat)
    requires Inv(c, s) && Next(c, s, step).Ok? && !IsSwap(c, s, step)
    requires IsLive(s.table.procs, p) && !(s.cpu.Running? && s.cpu.proc == p)
    ensures KeepsPlace(s.table, Next(c, s, step).next.table, p)
  {
    hide Inv, DoExit, DoWait, DoTick, Leave, DoForkCommit;
    RunningInRange(c, s);
    match step
    case Tick => if s.cpu.Running? { TickForward(c, s, p); }
    case Exit => ExitForward(c, s, p);
    case Wait => WaitForward(c, s, p);
    case Sleep(a) => LeaveForward(c, s, s.table.procs[s.cpu.proc].(state := SLEEPING, chan := Addr(a)), p);
    case Yield => LeaveForward(c, s, s.table.procs[s.cpu.proc].(state := RUNNABLE), p);
    case ForkCommit(i, level) => ForkForward(c, s, i, level, p);
    case _ =>
  }

  ghost predicate Waits(s: State, p: nat, k: nat) {
    && k < |s.table.active| && p in s.table.active[k].queue
    && !(s.cpu.Running? && s.cpu.proc == p)
  }

  lemma RunForward(c: Config, ss: seq<State>, steps: seq<Step>, p: nat, k: nat, n: nat)
    requires Run(c, ss, steps) && n < |steps| && !IsSwap(c, ss[n], steps[n])
    requires Waits(ss[n], p, k) && Waits(ss[n + 1], p, k)
    ensures IndexOf(ss[n + 1].table.active[k].queue, p) <= IndexOf(ss[n].table.active[k].queue, p)
  {
    hide Next, Boot, IsSwap;
    RunInv(c, ss, steps, n);
    Queued(ss[n].table, [], ss[n].table.active, k, p);
    assert Next(c, ss[n], steps[n]) == Ok(ss[n + 1]);
    StepForward(c, ss[n], steps[n], p);
    assert Forward(ss[n].table.active[k].queue, ss[n + 1].table.active[k].queue, p);
  }

  /** Over any stretch of any run without a swap in which `p` waits on one active level, the number
      of processes ahead of it never grows. */
  lemma {:induction false} AheadNeverGrows(
      c: Config, ss: seq<State>, steps: seq<Step>, p: nat, k: nat, i: nat, j: nat)
    requires Run(c, ss, steps) && i <= j <= |steps| && NoSwap(c, ss, steps, i, j)
    requires forall n :: i <= n <= j ==> Waits(ss[n], p, k)
    ensures Waits(ss[i], p, k) && Waits(ss[j], p, k)
    ensures IndexOf(ss[j].table.active[k].queue, p) <= IndexOf(ss[i].table.active[k].queue, p)
    decreases j
  {
    hide Next, Boot, IsSwap, IndexOf;
    if i == j {
    } else {
      assert Waits(ss[j - 1], p, k) && Waits(ss[j], p, k);
      AheadNeverGrows(c, ss, steps, p, k, i, j - 1);
      RunForward(c, ss, steps, p, k, j - 1);
    }
  }

  // ---------- selection ----------

  /** Position `i` of level `k`, and a RUNNABLE process there. */
  predicate RunnableAt(t: Table, k: nat, i: nat) {
    && k < |t.active| && i < |t.active[k].queue| && t.active[k].queue[i] < |t.procs|
    && t.procs[t.active[k].queue[i]].state == RUNNABLE
  }

  /** No other RUNNABLE process of the active set is on a higher level or further ahead on this one. */
  ghost predicate FirstAt(t: Table, k: nat, i: nat) {
    RunnableAt(t, k, i) && forall j: nat, h: nat :: RunnableAt(t, j, h) ==> k < j || (k == j && i <= h)
  }

  /** Selection is exact: the scheduler swaps if and only if no process of the active set is
      RUNNABLE; else it dispatches the first one that is, by level and then by position, whose level
      and itself have quantum left. */
  lemma ScheduleExact(c: Config, s: State)
    requires Inv(c, s) && s.cpu == Scheduling
    ensures Next(c, s, Schedule).Ok?
    ensures IsSwap(c, s, Schedule) <==> forall k: nat, i: nat :: !RunnableAt(s.table, k, i)
    ensures !IsSwap(c, s, Schedule) ==> exists k: nat, i: nat ::
      && FirstAt(s.table, k, i)
      && Next(c, s, Schedule).next.cpu == Running(s.table.active[k].queue[i], k)
      && s.table.active[k].ticksLeft > 0 && s.table.procs[s.table.active[k].queue[i]].ticksLeft > 0
  {
    hide Swap, Partition, ExpiredOk, FamilyOk, QueueFails;
    RunningInRange(c, s);
    QueuesNeverFail(c, s, Schedule);
    var t := s.table;
    match Pick(t.procs, t.active, 0)
    case None =>
    case Some((k, i)) =>
      assert FirstAt(t, k, i);
      assert ActiveOk(c, t.procs, t.active[k], k);
      assert t.active[k].queue[i] in t.active[k].queue;
  }

  // ---------- a swap with quantum left ----------

  /** The first pass dispatches init, on its level. */
  lemma BootDispatch(c: Config)
    ensures Next(c, Boot(c), Schedule) == Ok(Dispatch(Boot(c), 0, c.startingLevel))
  {
    hide Swap, Inv, QueueFails;
    var s := Boot(c);
    BootInv(c);
    ScheduleExact(c, s);
    assert RunnableAt(s.table, c.startingLevel, 0);
  }

  /** Init sleeps at once: it is back on its level, and no quantum is used. */
  lemma BootSleep(c: Config)
    ensures var s := Dispatch(Boot(c), 0, c.startingLevel);
      && Inv(c, s) && WellFormed(c, s.table) && CpuInRange(c, s)
      && Next(c, s, Sleep(0)) == Ok(GoToSleep(c, s, Addr(0)))
      && GoToSleep(c, s, Addr(0)).cpu == Scheduling
      && GoToSleep(c, s, Addr(0)).table == WithProc(Boot(c).table, 0, Boot(c).table.procs[0].(state := SLEEPING, chan := Addr(0)))
  {
    hide Inv, QueueFails;
    var s, k := Dispatch(Boot(c), 0, c.startingLevel), c.startingLevel;
    BootDispatch(c);
    BootInv(c);
    NextInv(c, Boot(c), Schedule);
    RunningInRange(c, s);
    QueuesNeverFail(c, s, Sleep(0));
    var t := WithProc(s.table, 0, s.table.procs[0].(state := SLEEPING, chan := Addr(0)));
    assert Without([0], 0) == [] && [] + [0] == [0];
    assert t.active[k].queue == [0] && Spent(t, 0) == [];
    assert Requeue(c, t, 0, k).active == t.active;
    assert Requeue(c, t, 0, k).procs == t.procs;
  }

  /** A run in which the sets are swapped with every quantum of every active level left: init runs,
      sleeps at once, and nobody is RUNNABLE. */
  lemma EarlySwap(c: Config) returns (ss: seq<State>, steps: seq<Step>)
    ensures Run(c, ss, steps) && |steps| == 3 && IsSwap(c, ss[2], steps[2])
    ensures forall k :: 0 <= k < c.levels ==> k < |ss[2].table.active| && ss[2].table.active[k].ticksLeft == c.levelQuantum
  {
    hide Inv, Next, HandBack, Swap;
    var s0, s1 := Boot(c), Dispatch(Boot(c), 0, c.startingLevel);
    BootDispatch(c);
    BootSleep(c);
    var s2 := GoToSleep(c, s1, Addr(0));
    NextInv(c, s1, Sleep(0));
    ScheduleExact(c, s2);
    forall k: nat, i: nat ensures !RunnableAt(s2.table, k, i) { }
    ss, steps := [s0, s1, s2, Next(c, s2, Schedule).next], [Schedule, Sleep(0), Schedule];
  }
}
