/**
Under the invariant the queues never make a step panic: a process on the move leaves every queue a
free slot, and the expired set always has quantum.
*/
module RsdlPanics {
  import opened Base
  import opened Rsdl
  import opened RsdlInvariant
  import opened RsdlRefine

  // ---------- when the queues would panic ----------

  /** Level `j` has quantum and a free slot once `p` has left the queue of level `k`. */
  predicate OpenWithout(c: Config, ls: seq<Level>, j: nat, p: nat, k: nat)
    requires j < |ls|
  {
    ls[j].ticksLeft > 0 && |ls[j].queue| - (if j == k && p in ls[j].queue then 1 else 0) < c.nproc
  }

  /** In any table, be its queues in order or not: `priofork` panics exactly if every level from the one
      asked for on, of both sets, is out of quantum or full. */
  lemma ForkPanics(c: Config, s: State, slot: nat, level: nat)
    requires WellFormed(c, s.table) && CpuInRange(c, s) && s.cpu.Running? && slot < c.nproc && level < c.levels
    requires slot < |s.table.procs| && s.table.procs[slot].state == EMBRYO
    ensures Next(c, s, ForkCommit(slot, level)) == Panic <==>
      && (forall j :: level <= j < |s.table.active| ==> s.table.active[j].ticksLeft <= 0 || |s.table.active[j].queue| >= c.nproc)
      && (forall j :: level <= j < |s.table.expired| ==> s.table.expired[j].ticksLeft <= 0 || |s.table.expired[j].queue| >= c.nproc)
  {
    var t := WithProc(s.table, slot, s.table.procs[slot].(defaultLevel := level));
    assert t.procs[slot].defaultLevel == level;
    assert SomeOpen(c, t.active, level) <==> exists j :: level <= j < |t.active| && Open(c, t.active[j]);
  }

  /** A process that yields with ticks left, on a level with quantum, makes the scheduler panic exactly
      if it is not in the queue of its level, or no level from there on and no expired level from its
      default level on has quantum and a free slot. */
  lemma YieldPanics(c: Config, s: State)
    requires WellFormed(c, s.table) && CpuInRange(c, s) && s.cpu.Running?
    requires s.cpu.proc < |s.table.procs| && s.cpu.level < |s.table.active|
    requires s.table.active[s.cpu.level].ticksLeft > 0 && s.table.procs[s.cpu.proc].ticksLeft > 0
    ensures var p, k := s.cpu.proc, s.cpu.level;
      var d := s.table.procs[p].defaultLevel;
      Next(c, s, Yield) == Panic <==>
        || p !in s.table.active[k].queue
        || ((forall j :: Max(k, d) <= j < |s.table.active| ==> !OpenWithout(c, s.table.active, j, p, k))
            && (forall j :: d <= j < |s.table.expired| ==> s.table.expired[j].ticksLeft <= 0 || |s.table.expired[j].queue| >= c.nproc))
  {
    hide Place, Requeue, Deplete, PlaceAllFails;
    var p, k := s.cpu.proc, s.cpu.level;
    var t := WithProc(s.table, p, s.table.procs[p].(state := RUNNABLE));
    var q := t.active[k].queue;
    if p in q {
      WithoutMultiset(q, p);
      assert |multiset(Without(q, p))| + 1 == |multiset(q)|;
      assert |Without(q, p)| == |q| - 1;
    }
    var left := Left(c, t, k, Without(q, p), []);
    RefillSized(c, t, []);
    assert left.procs == t.procs && left.expired == s.table.expired;
    assert forall j :: 0 <= j < |left.active| && p in q ==> (Open(c, left.active[j]) <==> OpenWithout(c, s.table.active, j, p, k));
  }

  /** Placing several processes fails exactly if placing the first few does, or then the rest. */
  lemma {:induction false} PlaceAllFailsThen(c: Config, t: Table, a: seq<nat>, b: seq<nat>, floor: nat)
    requires Sized(c, t) && Slots(a, c.nproc) && Slots(b, c.nproc)
    ensures Slots(a + b, c.nproc) && Sized(c, PlaceAll(c, t, a, floor))
    ensures PlaceAllFails(c, t, a + b, floor) <==> PlaceAllFails(c, t, a, floor) || PlaceAllFails(c, PlaceAll(c, t, a, floor), b, floor)
    ensures forall p: nat :: p < c.nproc ==> (PlaceAllFails(c, t, [p], floor) <==> NoLevelFor(c, t, p, floor))
    decreases |a|
  {
    hide NoLevelFor;
    if a == [] {
      assert a + b == b;
    } else {
      assert (a + b)[1..] == a[1..] + b && (a + b)[0] == a[0];
      PlaceAllFailsThen(c, Place(c, t, a[0], floor), a[1..], b, floor);
    }
  }

  // ---------- why they never do ----------

  /** While a process is missing from the queues, `find_available_queue` finds one for it. */
  lemma LevelFor(c: Config, t: Table, missing: seq<nat>, p: nat, floor: nat)
    requires Core(c, t, missing) && missing != [] && p < c.nproc
    ensures !NoLevelFor(c, t, p, floor)
  {
    hide Partition, ActiveOk;
    Room(c, t, missing);
    var d := t.procs[p].defaultLevel;
    assert ExpiredOk(c, t.procs, t.expired[d], d);
    assert Open(c, t.expired[d]);
  }

  lemma {:induction false} PlacesForAll(c: Config, t: Table, ps: seq<nat>, floor: nat)
    requires Core(c, t, ps)
    requires forall i :: 0 <= i < |ps| ==> t.procs[ps[i]].ticksLeft == c.procQuantum
    ensures !PlaceAllFails(c, t, ps, floor)
    decreases |ps|
  {
    hide Partition, ActiveOk, ExpiredOk, NoLevelFor, NextWithQuantum;
    if ps == [] {
    } else {
      assert ps == [ps[0]] + ps[1..];
      LevelFor(c, t, ps, ps[0], floor);
      PlaceCore(c, t, ps[0], ps[1..], floor);
      PlacesForAll(c, Place(c, t, ps[0], floor), ps[1..], floor);
    }
  }

  lemma HandsBack(c: Config, t: Table, p: nat, k: nat)
    requires Returning(c, t, p, k)
    ensures !HandBackFails(c, t, p, k)
  {
    hide Partition, ActiveOk, ExpiredOk, NoLevelFor, PlaceAllFails, Left, Movers, Spent;
    if t.active[k].ticksLeft <= 0 {
      DepleteStart(c, t, p, k);
      PlacesForAll(c, Left(c, t, k, [], t.active[k].queue), Movers(t.procs, t.active[k].queue, p), k + 1);
    } else if t.procs[p].state != ZOMBIE {
      RequeueLive(c, t, p, k);
      LevelFor(c, TakenOut(c, t, p, k), [p], p, k + |Spent(t, p)|);
    }
  }

  lemma Leaves(c: Config, s: State, p: Proc)
    requires Inv(c, s) && s.cpu.Running? && WellFormed(c, s.table) && CpuInRange(c, s)
    requires p.state == SLEEPING || p.state == RUNNABLE
    requires p.defaultLevel == s.table.procs[s.cpu.proc].defaultLevel && p.ticksLeft == s.table.procs[s.cpu.proc].ticksLeft
    ensures p.defaultLevel < c.levels && !LeaveFails(c, s, p)
  {
    RunningInRange(c, s);
    RunningReturns(c, s, WithProc(s.table, s.cpu.proc, p));
    HandsBack(c, WithProc(s.table, s.cpu.proc, p), s.cpu.proc, s.cpu.level);
  }

  lemma Swaps(c: Config, t: Table)
    requires Core(c, t, [])
    ensures !SwapFails(c, t)
  {
    hide Partition, ActiveOk, ExpiredOk, PlaceAllFails;
    FlatSlots(t.active, c.nproc);
    RefillAt(c, t.procs, Flat(t.active));
    TradedLevels(c, t);
    TradedPartition(c, t);
    PlacesForAll(c, Traded(c, t), Flat(t.active), 0);
  }

  lemma Ticks(c: Config, s: State)
    requires Inv(c, s) && s.cpu.Running? && WellFormed(c, s.table) && CpuInRange(c, s)
    ensures !QueueFails(c, s, Tick)
  {
    hide HandBackFails;
    TickedReturns(c, s);
    HandsBack(c, Ticked(s), s.cpu.proc, s.cpu.level);
  }

  lemma Forks(c: Config, s: State, i: nat, level: int)
    requires Inv(c, s) && s.cpu.Running? && WellFormed(c, s.table) && CpuInRange(c, s)
    requires i < c.nproc && 0 <= level < c.levels && s.table.procs[i].state == EMBRYO
    ensures !QueueFails(c, s, ForkCommit(i, level))
  {
    hide NoLevelFor;
    var child := s.table.procs[i].(defaultLevel := level, state := RUNNABLE);
    NewProcCore(c, s.table, i, child);
    LevelFor(c, WithProc(s.table, i, child), [i], i, level);
    SameLevels(c, WithProc(s.table, i, child), WithProc(s.table, i, s.table.procs[i].(defaultLevel := level)), i, level);
  }

  lemma SameLevels(c: Config, t: Table, u: Table, p: nat, floor: nat)
    requires Sized(c, t) && Sized(c, u) && p < c.nproc && u.active == t.active && u.expired == t.expired
    requires u.procs[p].defaultLevel == t.procs[p].defaultLevel
    ensures NoLevelFor(c, u, p, floor) <==> NoLevelFor(c, t, p, floor)
  {
  }

  /** No step that the process table allows meets a panic of the queues. */
  lemma QueuesNeverFail(c: Config, s: State, step: Step)
    requires Inv(c, s) && WellFormed(c, s.table) && CpuInRange(c, s)
    requires step.Exit? ==> s.cpu.Running? && s.cpu.proc != s.initproc
    ensures !QueueFails(c, s, step)
  {
    hide LeaveFails, HandBackFails, SwapFails, NoLevelFor;
    if step == Schedule {
      Swaps(c, s.table);
    } else if s.cpu.Running? {
      var p := s.table.procs[s.cpu.proc];
      match step
      case Tick => Ticks(c, s);
      case Yield => Leaves(c, s, p.(state := RUNNABLE));
      case Sleep(a) => Leaves(c, s, p.(state := SLEEPING, chan := Addr(a)));
      case Wait => Leaves(c, s, p.(state := SLEEPING, chan := ProcAddr(s.cpu.proc)));
      case Exit =>
        ExitReturns(c, s);
        HandsBack(c, ExitTable(c, s.table, s.cpu.proc, s.initproc), s.cpu.proc, s.cpu.level);
      case ForkCommit(i, level) =>
        if i < c.nproc && s.table.procs[i].state == EMBRYO && 0 <= level < c.levels { Forks(c, s, i, level); }
      case _ =>
    }
  }

  /** The only step that panics in a state of the invariant is the exit of init: no level is ever
      full, no process ever missing from its queue, and there is always a level to put one. */
  lemma OnlyInitExitPanics(c: Config, s: State, step: Step)
    requires Inv(c, s)
    ensures Next(c, s, step) == Panic <==> step == Exit && s.cpu.Running? && s.cpu.proc == s.initproc
  {
    hide QueueFails;
    RunningInRange(c, s);
    if !(step.Exit? && !(s.cpu.Running? && s.cpu.proc != s.initproc)) { QueuesNeverFail(c, s, step); }
  }
}
