/**
What the scheduler guarantees over whole runs: the invariant everywhere, and the staircase bound on
the ticks one process gets between two swaps.
*/
module RsdlRuns {
  import opened Base
  import opened Rsdl
  import opened RsdlInvariant

  /** A run from boot: `ss[i]` steps to `ss[i + 1]` by `steps[i]`. */
  ghost predicate Run(c: Config, ss: seq<State>, steps: seq<Step>) { Whole(RunFacts(c, ss, steps)) }

  ghost predicate RunFacts(c: Config, ss: seq<State>, steps: seq<Step>) {
    && |ss| == |steps| + 1 && ss[0] == Boot(c)
    && forall i {:trigger steps[i]} :: 0 <= i < |steps| ==> Next(c, ss[i], steps[i]) == Ok(ss[i + 1])
  }

  /** The invariant holds in every state of every run. */
  lemma {:induction false} RunInv(c: Config, ss: seq<State>, steps: seq<Step>, i: nat)
    requires Run(c, ss, steps) && i <= |steps|
    ensures Inv(c, ss[i])
  {
    if i == 0 {
      BootInv(c);
    } else {
      RunInv(c, ss, steps, i - 1);
      assert Next(c, ss[i - 1], steps[i - 1]) == Ok(ss[i - 1 + 1]);
      NextInv(c, ss[i - 1], steps[i - 1]);
    }
  }

  // ---------- where a process stands ----------

  /** The first level that holds `p`, or the number of levels. */
  function LevelOf(ls: seq<Level>, p: nat): (k: nat)
    ensures k <= |ls| && (k < |ls| ==> p in ls[k].queue)
    ensures forall j :: 0 <= j < k ==> p !in ls[j].queue
  {
    if ls == [] || p in ls[0].queue then 0
    else
      var k := LevelOf(ls[1..], p);
      assert forall j :: 0 < j < k + 1 ==> ls[j] == ls[1..][j - 1];
      k + 1
  }

  /** `n` full quanta. */
  function Quanta(n: nat, quantum: nat): nat {
    if n == 0 then 0 else quantum + Quanta(n - 1, quantum)
  }

  lemma {:induction false} QuantaProduct(n: nat, quantum: nat)
    ensures Quanta(n, quantum) == n * quantum
  {
    if n == 0 {
    } else {
      QuantaProduct(n - 1, quantum);
    }
  }

  lemma {:induction false} QuantaGrow(m: nat, n: nat, quantum: nat)
    requires m <= n
    ensures Quanta(m, quantum) <= Quanta(n, quantum)
  {
    if m == n {
    } else {
      QuantaGrow(m, n - 1, quantum);
    }
  }

  /** The ticks `p` may still use before the next swap: what is left of its quantum, and a full
      quantum for every lower level; none once it has left the active set. */
  function Budget(c: Config, t: Table, p: nat): nat
    requires p < |t.procs| && |t.active| == c.levels
  {
    var k := LevelOf(t.active, p);
    if k == c.levels then 0 else Max(0, t.procs[p].ticksLeft) + Quanta(c.levels - 1 - k, c.procQuantum)
  }

  /** From `t` to `u` process `p` has not moved up, and its budget fell by at least `used`. */
  ghost predicate Standing(c: Config, t: Table, u: Table, p: nat, used: nat) { Whole(StandingFacts(c, t, u, p, used)) }

  ghost predicate StandingFacts(c: Config, t: Table, u: Table, p: nat, used: nat) {
    && |t.active| == |u.active| == c.levels && p < |t.procs| && p < |u.procs|
    && LevelOf(t.active, p) <= LevelOf(u.active, p)
    && Budget(c, u, p) + used <= Budget(c, t, p)
  }

  lemma LevelIs(ls: seq<Level>, p: nat, k: nat)
    requires k < |ls| && p in ls[k].queue && Count(ls, p) <= 1
    ensures LevelOf(ls, p) == k
  {
    if LevelOf(ls, p) != k { TwoLevels(ls, LevelOf(ls, p), k, p); }
  }

  // ---------- what placing does to a process ----------

  lemma PlaceOthers(c: Config, t: Table, p: nat, floor: nat, y: nat)
    requires Sized(c, t) && p < c.nproc && y != p
    ensures LevelOf(Place(c, t, p, floor).active, y) == LevelOf(t.active, y)
    ensures Sized(c, Place(c, t, p, floor)) && Place(c, t, p, floor).procs == t.procs
  {
    var u := Place(c, t, p, floor);
    assert forall j :: 0 <= j < |t.active| ==> (y in u.active[j].queue <==> y in t.active[j].queue);
    var a, b := LevelOf(u.active, y), LevelOf(t.active, y);
    assert a < |u.active| ==> y in t.active[a].queue;
    assert b < |t.active| ==> y in u.active[b].queue;
  }

  lemma {:induction false} PlaceAllOthers(c: Config, t: Table, ps: seq<nat>, floor: nat, y: nat)
    requires Sized(c, t) && Slots(ps, c.nproc) && y !in ps
    ensures LevelOf(PlaceAll(c, t, ps, floor).active, y) == LevelOf(t.active, y)
    decreases |ps|
  {
    if ps == [] {
    } else {
      PlaceOthers(c, t, ps[0], floor, y);
      PlaceAllOthers(c, Place(c, t, ps[0], floor), ps[1..], floor, y);
    }
  }

  /** Nothing above the floor changes. */
  lemma {:induction false} PlaceAllAbove(c: Config, t: Table, ps: seq<nat>, floor: nat)
    requires Sized(c, t) && Slots(ps, c.nproc)
    ensures |PlaceAll(c, t, ps, floor).active| == |t.active|
    ensures forall j :: 0 <= j < floor && j < |t.active| ==> PlaceAll(c, t, ps, floor).active[j] == t.active[j]
    decreases |ps|
  {
    if ps == [] {
    } else {
      PlaceAllAbove(c, Place(c, t, ps[0], floor), ps[1..], floor);
    }
  }

  // ---------- the staircase: no step but a swap lifts a process or its budget ----------

  lemma StayStanding(c: Config, t: Table, u: Table, p: nat, used: nat)
    requires |t.active| == |u.active| == c.levels && p < |t.procs| && p < |u.procs|
    requires LevelOf(u.active, p) == LevelOf(t.active, p)
    requires LevelOf(t.active, p) < c.levels ==> 0 <= u.procs[p].ticksLeft && u.procs[p].ticksLeft + used <= t.procs[p].ticksLeft
    requires LevelOf(t.active, p) == c.levels ==> used == 0
    ensures Standing(c, t, u, p, used)
  {
  }

  /** Going down at least one level pays for a fresh quantum. */
  lemma DownStanding(c: Config, t: Table, u: Table, p: nat)
    requires |t.active| == |u.active| == c.levels && p < |t.procs| && p < |u.procs|
    requires LevelOf(t.active, p) < LevelOf(u.active, p) && u.procs[p].ticksLeft <= c.procQuantum
    ensures Standing(c, t, u, p, 0)
  {
    var k, k' := LevelOf(t.active, p), LevelOf(u.active, p);
    if k' < c.levels { QuantaGrow(c.levels - k', c.levels - 1 - k, c.procQuantum); }
  }

  lemma SameMembers(a: seq<Level>, b: seq<Level>, p: nat)
    requires |a| == |b| && forall j :: 0 <= j < |a| ==> (p in a[j].queue <==> p in b[j].queue)
    ensures LevelOf(a, p) == LevelOf(b, p)
  {
    assert LevelOf(a, p) < |a| ==> p in b[LevelOf(a, p)].queue;
    assert LevelOf(b, p) < |b| ==> p in a[LevelOf(b, p)].queue;
  }

  lemma LiveCount(t: Table, p: nat)
    requires Partition(t, [])
    ensures Count(t.active, p) <= 1
  {
    assert Count(t.active, p) + Count(t.expired, p) + multiset([])[p] <= 1;
  }

  /** A process of the depleted level ends up below it, with a fresh quantum. */
  lemma DepletedStanding(c: Config, t: Table, x: nat, k: nat, p: nat)
    requires Returning(c, t, x, k) && t.active[k].ticksLeft <= 0 && p in t.active[k].queue
    ensures |Deplete(c, t, x, k).procs| == c.nproc && Standing(c, t, Deplete(c, t, x, k), p, 0)
  {
    hide ActiveOk, ExpiredOk, LevelOf, Budget, StandingFacts, PlaceAll, Refill, Movers, Without;
    var q, u := t.active[k].queue, Deplete(c, t, x, k);
    var left, movers := Left(c, t, k, [], q), Movers(t.procs, q, x);
    RefillSized(c, t, q);
    RefillAt(c, t.procs, q);
    PlaceAllProcs(c, left, movers, k + 1);
    PlaceAllAbove(c, left, movers, k + 1);
    LiveCount(t, p);
    LevelIs(t.active, p, k);
    assert forall j :: 0 <= j < k + 1 ==> u.active[j] == left.active[j];
    DownStanding(c, t, u, p);
  }

  lemma DepleteStanding(c: Config, t: Table, x: nat, k: nat, p: nat)
    requires Returning(c, t, x, k) && t.active[k].ticksLeft <= 0 && IsLive(t.procs, p)
    requires LevelOf(t.active, p) < c.levels ==> 0 <= t.procs[p].ticksLeft
    ensures |Deplete(c, t, x, k).procs| == c.nproc && Standing(c, t, Deplete(c, t, x, k), p, 0)
  {
    hide ActiveOk, ExpiredOk, LevelOf, Budget, StandingFacts, Partition, PlaceAll, Refill, Movers, Without;
    if p in t.active[k].queue {
      DepletedStanding(c, t, x, k, p);
    } else {
      var q, u := t.active[k].queue, Deplete(c, t, x, k);
      var left, movers := Left(c, t, k, [], q), Movers(t.procs, q, x);
      LeftStanding(c, t, k, [], q, p);
      PlaceAllProcs(c, left, movers, k + 1);
      PlaceAllAbove(c, left, movers, k + 1);
      NotMoving(c, t, x, k, p);
      PlaceAllOthers(c, left, movers, k + 1, p);
      StayStanding(c, t, u, p, 0);
    }
  }

  /** Level `k` without some other process, and some other process refilled. */
  lemma LeftStanding(c: Config, t: Table, k: nat, q: seq<nat>, ps: seq<nat>, p: nat)
    requires Sized(c, t) && k < c.levels && Slots(ps, c.nproc) && p < c.nproc && p !in ps
    requires p in q <==> p in t.active[k].queue
    ensures Sized(c, Left(c, t, k, q, ps)) && Left(c, t, k, q, ps).procs[p] == t.procs[p]
    ensures LevelOf(Left(c, t, k, q, ps).active, p) == LevelOf(t.active, p)
  {
    RefillSized(c, t, ps);
    RefillAt(c, t.procs, ps);
    SameMembers(Left(c, t, k, q, ps).active, t.active, p);
  }

  lemma RequeueOtherStanding(c: Config, t: Table, x: nat, k: nat, p: nat)
    requires Returning(c, t, x, k) && t.active[k].ticksLeft > 0 && p < c.nproc && p != x
    requires LevelOf(t.active, p) < c.levels ==> 0 <= t.procs[p].ticksLeft
    ensures |Requeue(c, t, x, k).procs| == c.nproc && Standing(c, t, Requeue(c, t, x, k), p, 0)
  {
    hide Partition, ActiveOk, ExpiredOk, LevelOf, Budget, StandingFacts, Place, Refill;
    if t.procs[x].state == ZOMBIE {
      LeftStanding(c, t, k, t.active[k].queue, Spent(t, x), p);
    } else {
      WithoutMembers(t.active[k].queue, x);
      LeftStanding(c, t, k, Without(t.active[k].queue, x), Spent(t, x), p);
      PlaceOthers(c, TakenOut(c, t, x, k), x, k + |Spent(t, x)|, p);
    }
    StayStanding(c, t, Requeue(c, t, x, k), p, 0);
  }

  /** Taking the process that ran out of its queue leaves no trace of it down to there. */
  lemma TakenOutLevels(c: Config, t: Table, x: nat, k: nat)
    requires Returning(c, t, x, k) && t.procs[x].state != ZOMBIE
    ensures LevelOf(t.active, x) == k && Sized(c, TakenOut(c, t, x, k))
    ensures forall j :: 0 <= j <= k ==> x !in TakenOut(c, t, x, k).active[j].queue
    ensures TakenOut(c, t, x, k).procs[x] ==
      t.procs[x].(ticksLeft := if t.procs[x].ticksLeft <= 0 then c.procQuantum else t.procs[x].ticksLeft)
  {
    RefillSized(c, t, Spent(t, x));
    RefillAt(c, t.procs, Spent(t, x));
    LeavesOnce(c, t, x, k);
    LiveCount(t, x);
    LevelIs(t.active, x, k);
  }

  lemma StaysHere(c: Config, t: Table, x: nat, k: nat)
    requires Sized(c, t) && x < c.nproc && k < c.levels && t.active[k].ticksLeft > 0 && t.procs[x].defaultLevel <= k
    requires forall j :: 0 <= j <= k ==> x !in t.active[j].queue
    ensures LevelOf(Place(c, t, x, k).active, x) == k
  {
    assert NextWithQuantum(t.active, Max(k, t.procs[x].defaultLevel)) == Some(k);
    var u := Place(c, t, x, k);
    assert u.active[k].queue == t.active[k].queue + [x];
    assert forall j :: 0 <= j < k ==> u.active[j] == t.active[j];
  }

  lemma GoesDown(c: Config, t: Table, x: nat, k: nat)
    requires Sized(c, t) && x < c.nproc && k < c.levels
    requires forall j :: 0 <= j <= k ==> x !in t.active[j].queue
    ensures LevelOf(Place(c, t, x, k + 1).active, x) > k
  {
    var u := Place(c, t, x, k + 1);
    assert forall j :: 0 <= j <= k ==> u.active[j] == t.active[j];
  }

  lemma RequeueSelfStanding(c: Config, t: Table, x: nat, k: nat)
    requires Returning(c, t, x, k) && t.active[k].ticksLeft > 0 && t.procs[x].state != ZOMBIE
    ensures |Requeue(c, t, x, k).procs| == c.nproc && Standing(c, t, Requeue(c, t, x, k), x, 0)
  {
    TakenOutLevels(c, t, x, k);
    if t.procs[x].ticksLeft > 0 {
      StaysHere(c, TakenOut(c, t, x, k), x, k);
      StayStanding(c, t, Requeue(c, t, x, k), x, 0);
    } else {
      GoesDown(c, TakenOut(c, t, x, k), x, k);
      DownStanding(c, t, Requeue(c, t, x, k), x);
    }
  }

  lemma HandBackStanding(c: Config, t: Table, x: nat, k: nat, p: nat)
    requires Returning(c, t, x, k) && IsLive(t.procs, p)
    requires LevelOf(t.active, p) < c.levels ==> 0 <= t.procs[p].ticksLeft
    ensures Standing(c, t, HandBack(c, t, x, k), p, 0)
  {
    if t.active[k].ticksLeft <= 0 {
      DepleteStanding(c, t, x, k, p);
    } else if p == x {
      RequeueSelfStanding(c, t, x, k);
    } else {
      RequeueOtherStanding(c, t, x, k, p);
    }
  }

  lemma QueuedTicks(c: Config, s: State, p: nat)
    requires Inv(c, s)
    ensures LevelOf(s.table.active, p) < c.levels ==> IsLive(s.table.procs, p) && 0 < s.table.procs[p].ticksLeft <= c.procQuantum
  {
    var k := LevelOf(s.table.active, p);
    if k < c.levels {
      assert ActiveOk(c, s.table.procs, s.table.active[k], k);
      Queued(s.table, [], s.table.active, k, p);
    }
  }

  lemma StandingChain(c: Config, t: Table, u: Table, v: Table, p: nat, a: nat, b: nat)
    requires Standing(c, t, u, p, a) && Standing(c, u, v, p, b)
    ensures Standing(c, t, v, p, a + b)
  {
  }

  /** The step charges a running tick to `p`. */
  predicate Charged(s: State, step: Step, p: nat) { step == Tick && s.cpu.Running? && s.cpu.proc == p }

  /** The step swaps the sets. */
  predicate IsSwap(c: Config, s: State, step: Step) {
    step == Schedule && s.cpu == Scheduling && WellFormed(c, s.table) && Pick(s.table.procs, s.table.active, 0) == None
  }

  /** The same queues and the same quantum of `p`. */
  lemma QuietStanding(c: Config, s: State, u: Table, p: nat)
    requires Inv(c, s) && IsLive(s.table.procs, p) && |u.procs| == c.nproc
    requires u.active == s.table.active && u.procs[p].ticksLeft == s.table.procs[p].ticksLeft
    ensures Standing(c, s.table, u, p, 0)
  {
    QueuedTicks(c, s, p);
    StayStanding(c, s.table, u, p, 0);
  }

  lemma LeaveStanding(c: Config, s: State, x: Proc, p: nat)
    requires Inv(c, s) && s.cpu.Running? && IsLive(s.table.procs, p) && CpuInRange(c, s)
    requires x.state == SLEEPING || x.state == RUNNABLE
    requires x.(state := RUNNING, chan := NoChan) == s.table.procs[s.cpu.proc].(chan := NoChan)
    ensures Standing(c, s.table, Leave(c, s, x).table, p, 0)
  {
    var u := WithProc(s.table, s.cpu.proc, x);
    assert ActiveOk(c, s.table.procs, s.table.active[s.cpu.level], s.cpu.level);
    RunningReturns(c, s, u);
    QuietStanding(c, s, u, p);
    QueuedTicks(c, s, p);
    HandBackStanding(c, u, s.cpu.proc, s.cpu.level, p);
    StandingChain(c, s.table, u, HandBack(c, u, s.cpu.proc, s.cpu.level), p, 0, 0);
  }

  lemma ChargeStanding(c: Config, s: State, u: Table, p: nat)
    requires Inv(c, s) && s.cpu.Running? && IsLive(s.table.procs, p)
    requires u == Charge(s.table, s.cpu.proc, s.cpu.level) || u == Ticked(s)
    ensures |u.active| == c.levels && |u.procs| == c.nproc
    ensures Standing(c, s.table, u, p, if p == s.cpu.proc then 1 else 0)
    ensures LevelOf(u.active, p) < c.levels ==> 0 <= u.procs[p].ticksLeft
  {
    QueuedTicks(c, s, p);
    SameMembers(u.active, s.table.active, p);
    if p == s.cpu.proc {
      LiveCount(s.table, p);
      LevelIs(s.table.active, p, s.cpu.level);
      StayStanding(c, s.table, u, p, 1);
    } else {
      StayStanding(c, s.table, u, p, 0);
    }
  }

  lemma TickStanding(c: Config, s: State, p: nat)
    requires Inv(c, s) && s.cpu.Running? && IsLive(s.table.procs, p) && WellFormed(c, s.table) && CpuInRange(c, s)
    ensures Standing(c, s.table, DoTick(c, s).table, p, if p == s.cpu.proc then 1 else 0)
  {
    ChargeWellFormed(c, s.table, s.cpu.proc, s.cpu.level);
    ChargeStanding(c, s, Charge(s.table, s.cpu.proc, s.cpu.level), p);
    ChargeStanding(c, s, Ticked(s), p);
    TickedReturns(c, s);
    HandBackStanding(c, Ticked(s), s.cpu.proc, s.cpu.level, p);
    StandingChain(c, s.table, Ticked(s), HandBack(c, Ticked(s), s.cpu.proc, s.cpu.level), p,
                  if p == s.cpu.proc then 1 else 0, 0);
  }

  lemma RemoveLevelOf(ls: seq<Level>, x: nat, n: nat, p: nat)
    requires SlotsIn(ls, n) && p != x
    ensures LevelOf(RemoveFrom(ls, x, n), p) == LevelOf(ls, p)
  {
    forall j | 0 <= j < |ls| ensures p in RemoveFrom(ls, x, n)[j].queue <==> p in ls[j].queue {
      WithoutMembers(ls[j].queue, x);
    }
    SameMembers(RemoveFrom(ls, x, n), ls, p);
  }

  lemma ExitStanding(c: Config, s: State, p: nat)
    requires Inv(c, s) && s.cpu.Running? && s.cpu.proc != s.initproc && WellFormed(c, s.table) && CpuInRange(c, s)
    requires IsLive(s.table.procs, p) && p != s.cpu.proc
    ensures Standing(c, s.table, DoExit(c, s).table, p, 0)
  {
    var x, k := s.cpu.proc, s.cpu.level;
    var u := ExitTable(c, s.table, x, s.initproc);
    ExitReturns(c, s);
    ExitKeeps(c, s.table, x, s.initproc);
    ExitStaysLive(c, s.table, x, s.initproc, p);
    RemoveLevelOf(s.table.active, x, c.nproc, p);
    QueuedTicks(c, s, p);
    StayStanding(c, s.table, u, p, 0);
    HandBackStanding(c, u, x, k, p);
    StandingChain(c, s.table, u, HandBack(c, u, x, k), p, 0, 0);
  }

  lemma ExitStaysLive(c: Config, t: Table, x: nat, init: nat, p: nat)
    requires WellFormed(c, t) && x < c.nproc && IsLive(t.procs, p) && p != x
    ensures IsLive(ExitTable(c, t, x, init).procs, p)
  {
  }

  /** A process that has left all queues stands at the bottom with no budget. */
  lemma GoneStanding(c: Config, s: State, u: State, p: nat)
    requires Inv(c, s) && Inv(c, u) && p < c.nproc && !Live(u.table.procs[p])
    ensures Standing(c, s.table, u.table, p, 0)
  {
    QueuedTicks(c, u, p);
  }

  lemma ExitedIsGone(c: Config, s: State)
    requires Inv(c, s) && s.cpu.Running? && s.cpu.proc != s.initproc && WellFormed(c, s.table) && CpuInRange(c, s)
    ensures |DoExit(c, s).table.procs| == c.nproc && DoExit(c, s).table.procs[s.cpu.proc].state == ZOMBIE
  {
    var u := ExitTable(c, s.table, s.cpu.proc, s.initproc);
    ExitReturns(c, s);
    RunningInRange(c, s);
    HandBackProcs(c, u, s.cpu.proc, s.cpu.level);
    RefillAt(c, u.procs, Spent(u, s.cpu.proc));
  }

  lemma ForkStanding(c: Config, s: State, slot: nat, level: nat, p: nat)
    requires Inv(c, s) && s.cpu.Running? && slot < c.nproc && s.table.procs[slot].state == EMBRYO && level < c.levels
    requires IsLive(s.table.procs, p)
    ensures Standing(c, s.table, DoForkCommit(c, s, slot, level).table, p, 0)
  {
    var child := s.table.procs[slot].(parent := Some(s.cpu.proc), defaultLevel := level, state := RUNNABLE);
    var u := WithProc(s.table, slot, child);
    assert Sized(c, u);
    PlaceOthers(c, u, slot, level, p);
    QueuedTicks(c, s, p);
    StayStanding(c, s.table, Place(c, u, slot, level), p, 0);
  }

  lemma WaitStanding(c: Config, s: State, p: nat)
    requires Inv(c, s) && s.cpu.Running? && WellFormed(c, s.table) && CpuInRange(c, s) && IsLive(s.table.procs, p)
    ensures Standing(c, s.table, DoWait(c, s).table, p, 0)
  {
    var procs, x := s.table.procs, s.cpu.proc;
    LeaveStanding(c, s, procs[x].(state := SLEEPING, chan := ProcAddr(x)), p);
    QuietStanding(c, s, s.table, p);
    match ZombieOf(procs, x)
    case Some(i) => QuietStanding(c, s, WithProc(s.table, i, Reaped(procs[i])), p);
    case None =>
  }

  lemma ExitStepStanding(c: Config, s: State, p: nat)
    requires Inv(c, s) && s.cpu.Running? && s.cpu.proc != s.initproc && WellFormed(c, s.table) && CpuInRange(c, s)
    requires IsLive(s.table.procs, p)
    ensures Standing(c, s.table, DoExit(c, s).table, p, 0)
  {
    if p == s.cpu.proc {
      ExitInv(c, s);
      ExitedIsGone(c, s);
      GoneStanding(c, s, DoExit(c, s), p);
    } else {
      ExitStanding(c, s, p);
    }
  }

  /** No step but a swap moves a live process up or raises its budget, and a tick costs it one. */
  lemma StepStanding(c: Config, s: State, step: Step, p: nat)
    requires Inv(c, s) && Next(c, s, step).Ok? && !IsSwap(c, s, step) && IsLive(s.table.procs, p)
    ensures Standing(c, s.table, Next(c, s, step).next.table, p, if Charged(s, step, p) then 1 else 0)
  {
    hide Inv, StandingFacts, DoExit, DoWait, DoTick, Leave, DoForkCommit;
    RunningInRange(c, s);
    match step
    case Tick => if s.cpu.Running? { TickStanding(c, s, p); } else { QuietStanding(c, s, s.table, p); }
    case Exit => ExitStepStanding(c, s, p);
    case Wait => WaitStanding(c, s, p);
    case Sleep(a) => LeaveStanding(c, s, s.table.procs[s.cpu.proc].(state := SLEEPING, chan := Addr(a)), p);
    case Yield => LeaveStanding(c, s, s.table.procs[s.cpu.proc].(state := RUNNABLE), p);
    case ForkCommit(i, level) => ForkStanding(c, s, i, level, p);
    case _ => QuietStanding(c, s, Next(c, s, step).next.table, p);
  }

  lemma BudgetAtMost(c: Config, s: State, p: nat)
    requires Inv(c, s) && p < c.nproc
    ensures Budget(c, s.table, p) <= (c.levels - s.table.procs[p].defaultLevel) * c.procQuantum
  {
    var k, d := LevelOf(s.table.active, p), s.table.procs[p].defaultLevel;
    QueuedTicks(c, s, p);
    QuantaProduct(c.levels - d, c.procQuantum);
    if k < c.levels {
      assert ActiveOk(c, s.table.procs, s.table.active[k], k);
      QuantaGrow(c.levels - k, c.levels - d, c.procQuantum);
    }
  }

  /** The running ticks charged to `p` by the steps from `i` up to `j`. */
  ghost function TicksOf(ss: seq<State>, steps: seq<Step>, p: nat, i: nat, j: nat): nat
    requires i <= j <= |steps| < |ss|
    decreases j
  {
    if i == j then 0 else TicksOf(ss, steps, p, i, j - 1) + if Charged(ss[j - 1], steps[j - 1], p) then 1 else 0
  }

  ghost predicate NoSwap(c: Config, ss: seq<State>, steps: seq<Step>, i: nat, j: nat)
    requires i <= j <= |steps| < |ss|
  {
    forall n :: i <= n < j ==> !IsSwap(c, ss[n], steps[n])
  }

  lemma RunStanding(c: Config, ss: seq<State>, steps: seq<Step>, p: nat, n: nat)
    requires Run(c, ss, steps) && n < |steps| && !IsSwap(c, ss[n], steps[n]) && IsLive(ss[n].table.procs, p)
    ensures Standing(c, ss[n].table, ss[n + 1].table, p, if Charged(ss[n], steps[n], p) then 1 else 0)
  {
    RunInv(c, ss, steps, n);
    assert Next(c, ss[n], steps[n]) == Ok(ss[n + 1]);
    StepStanding(c, ss[n], steps[n], p);
  }

  lemma StandingStart(c: Config, ss: seq<State>, steps: seq<Step>, p: nat, i: nat)
    requires Run(c, ss, steps) && i <= |steps| && p < c.nproc
    ensures Standing(c, ss[i].table, ss[i].table, p, 0)
  {
    RunInv(c, ss, steps, i);
  }

  lemma {:induction false} StaircaseRun(c: Config, ss: seq<State>, steps: seq<Step>, p: nat, i: nat, j: nat)
    requires Run(c, ss, steps) && i <= j <= |steps| && p < c.nproc && NoSwap(c, ss, steps, i, j)
    requires forall n :: i <= n < j ==> IsLive(ss[n].table.procs, p)
    ensures Standing(c, ss[i].table, ss[j].table, p, TicksOf(ss, steps, p, i, j))
    decreases j
  {
    hide Next, Boot, IsSwap, Charged, StandingFacts, IsLive;
    if i == j {
      StandingStart(c, ss, steps, p, i);
    } else {
      StaircaseRun(c, ss, steps, p, i, j - 1);
      RunStanding(c, ss, steps, p, j - 1);
      StandingChain(c, ss[i].table, ss[j - 1].table, ss[j].table, p, TicksOf(ss, steps, p, i, j - 1),
                    if Charged(ss[j - 1], steps[j - 1], p) then 1 else 0);
    }
  }

  /** The staircase bound: over any stretch of any run without a swap, a process never moves up,
      and gets at most one process quantum of running time per level from its default level down. */
  lemma StaircaseBound(c: Config, ss: seq<State>, steps: seq<Step>, p: nat, i: nat, j: nat)
    requires Run(c, ss, steps) && i <= j <= |steps| && p < c.nproc && NoSwap(c, ss, steps, i, j)
    requires forall n :: i <= n < j ==> IsLive(ss[n].table.procs, p)
    ensures |ss[i].table.procs| == c.nproc
    ensures LevelOf(ss[i].table.active, p) <= LevelOf(ss[j].table.active, p)
    ensures TicksOf(ss, steps, p, i, j) <= (c.levels - ss[i].table.procs[p].defaultLevel) * c.procQuantum
  {
    hide Next, Boot, IsSwap, Inv, Budget, LevelOf;
    StaircaseRun(c, ss, steps, p, i, j);
    RunInv(c, ss, steps, i);
    RunningInRange(c, ss[i]);
    BudgetAtMost(c, ss[i], p);
  }
}
