/**
The Rotating Staircase DeadLine scheduler of `proc.c` and `trap.c` as a state machine over
values.  A state holds the process table with its active and expired set of level queues, and
what the single CPU is doing.  Every critical section under `ptable.lock` is one step.
*/
module Rsdl {
  import opened Base

  /** The compile-time parameters of `param.h` and `rsdl.h`, all positive. */
  datatype Parameters = Parameters(
    nproc: nat, levels: nat, procQuantum: nat, levelQuantum: nat, startingLevel: nat)

  type Config = c: Parameters |
      && c.nproc > 0 && c.levels > 0 && c.procQuantum > 0 && c.levelQuantum > 0
      && c.startingLevel < c.levels
    witness Parameters(64, 3, 20, 100, 0)

  datatype ProcState = UNUSED | EMBRYO | SLEEPING | RUNNABLE | RUNNING | ZOMBIE

  /** A sleep channel: none, the address of a process slot (used by `wait`), or any other address. */
  datatype Chan = NoChan | ProcAddr(slot: nat) | Addr(address: nat)

  datatype Proc = Proc(state: ProcState, pid: nat, parent: Option<nat>, chan: Chan, killed: bool,
                       ticksLeft: int, defaultLevel: nat)

  datatype Level = Level(ticksLeft: int, queue: seq<nat>)

  /** `ptable`: the processes and the two sets of level queues. */
  datatype Table = Table(procs: seq<Proc>, active: seq<Level>, expired: seq<Level>)

  /** The CPU is in the scheduler loop, or runs a process picked from a level of the active set. */
  datatype Cpu = Scheduling | Running(proc: nat, level: nat)

  datatype State = State(table: Table, cpu: Cpu, initproc: nat, nextpid: nat)

  datatype Step =
    | ForkBegin
    | ForkAbort(slot: nat)
    | ForkCommit(slot: nat, level: int)
    | Exit
    | Wait
    | Sleep(address: nat)
    | Wakeup(address: nat)
    | Kill(pid: nat)
    | Yield
    | Tick
    | Schedule

  datatype Outcome = Ok(next: State) | Panic | Disabled

  predicate Live(p: Proc) { p.state == SLEEPING || p.state == RUNNABLE || p.state == RUNNING }

  /** The table and the two sets have their sizes, and default levels are levels. */
  predicate Sized(c: Config, t: Table) { Whole(SizedFacts(c, t)) }

  predicate SizedFacts(c: Config, t: Table) {
    && |t.procs| == c.nproc && |t.active| == |t.expired| == c.levels
    && forall i :: 0 <= i < c.nproc ==> t.procs[i].defaultLevel < c.levels
  }

  /** Every entry is a slot of a table of `n` processes. */
  predicate Slots(q: seq<nat>, n: nat) { forall i :: 0 <= i < |q| ==> q[i] < n }

  predicate SlotsIn(ls: seq<Level>, n: nat) { forall k :: 0 <= k < |ls| ==> Slots(ls[k].queue, n) }

  lemma WithoutSlots(q: seq<nat>, p: nat, n: nat)
    requires Slots(q, n)
    ensures Slots(Without(q, p), n)
  {
    if q == [] {
    } else {
      WithoutSlots(q[1..], p, n);
    }
  }

  /** What it takes for the queues to index the table; part of `Inv`. */
  predicate WellFormed(c: Config, t: Table) { Whole(WellFormedFacts(c, t)) }

  predicate WellFormedFacts(c: Config, t: Table) {
    Sized(c, t) && SlotsIn(t.active, c.nproc) && SlotsIn(t.expired, c.nproc)
  }

  predicate CpuInRange(c: Config, s: State) {
    && (s.cpu.Running? ==> s.cpu.proc < c.nproc && s.cpu.level < c.levels)
    && s.initproc < c.nproc
  }

  // ---------- placing a process ----------

  /** The first level at or below `from` that still has quantum. */
  function NextWithQuantum(ls: seq<Level>, from: nat): (r: Option<nat>)
    ensures r.Some? ==> from <= r.value < |ls| && ls[r.value].ticksLeft > 0
    ensures forall j :: from <= j < (if r.Some? then r.value else |ls|) ==> ls[j].ticksLeft <= 0
    decreases |ls| - from
  {
    if from >= |ls| then None
    else if ls[from].ticksLeft > 0 then Some(from)
    else NextWithQuantum(ls, from + 1)
  }

  function Append(ls: seq<Level>, k: nat, p: nat): (r: seq<Level>)
    requires k < |ls|
  {
    ls[k := Level(ls[k].ticksLeft, ls[k].queue + [p])]
  }

  /** Append `p` to the first active level with quantum, from `floor` or its default level on
      (whichever is lower in the staircase), else to its default level of the expired set. */
  function Place(c: Config, t: Table, p: nat, floor: nat): Table
    requires Sized(c, t) && p < c.nproc
  {
    match NextWithQuantum(t.active, Max(floor, t.procs[p].defaultLevel))
    case Some(k) => t.(active := Append(t.active, k, p))
    case None => t.(expired := Append(t.expired, t.procs[p].defaultLevel, p))
  }

  function PlaceAll(c: Config, t: Table, ps: seq<nat>, floor: nat): Table
    requires Sized(c, t) && Slots(ps, c.nproc)
    decreases |ps|
  {
    if ps == [] then t else PlaceAll(c, Place(c, t, ps[0], floor), ps[1..], floor)
  }

  /** The processes with the quantum of those in `ps` full again. */
  function Refill(c: Config, procs: seq<Proc>, ps: seq<nat>): (r: seq<Proc>)
    requires Slots(ps, |procs|)
    ensures |r| == |procs|
    decreases |ps|
  {
    if ps == [] then procs
    else Refill(c, procs[ps[0] := procs[ps[0]].(ticksLeft := c.procQuantum)], ps[1..])
  }

  lemma {:induction false} RefillAt(c: Config, procs: seq<Proc>, ps: seq<nat>)
    requires Slots(ps, |procs|)
    ensures forall i :: 0 <= i < |procs| ==>
      Refill(c, procs, ps)[i] == if i in ps then procs[i].(ticksLeft := c.procQuantum) else procs[i]
    decreases |ps|
  {
    if ps == [] {
    } else {
      RefillAt(c, procs[ps[0] := procs[ps[0]].(ticksLeft := c.procQuantum)], ps[1..]);
    }
  }

  lemma RefillSized(c: Config, t: Table, ps: seq<nat>)
    requires Sized(c, t) && Slots(ps, c.nproc)
    ensures Sized(c, t.(procs := Refill(c, t.procs, ps)))
  {
    RefillAt(c, t.procs, ps);
  }

  // ---------- what the scheduler does when a process hands the CPU back ----------

  /** The processes a depleted queue sends on: in order, the one that ran last. */
  function Movers(procs: seq<Proc>, q: seq<nat>, p: nat): (r: seq<nat>)
    requires p < |procs| && Slots(q, |procs|)
    ensures Slots(r, |procs|)
  {
    WithoutSlots(q, p, |procs|);
    Without(q, p) + if procs[p].state == ZOMBIE then [] else [p]
  }

  /** Level `k` with just `q` left in it, after a refill of the processes in `ps`. */
  function Left(c: Config, t: Table, k: nat, q: seq<nat>, ps: seq<nat>): Table
    requires k < |t.active| && Slots(ps, |t.procs|)
  {
    t.(procs := Refill(c, t.procs, ps), active := t.active[k := Level(t.active[k].ticksLeft, q)])
  }

  /** Level `k` is out of quantum: all its processes are refilled and move on. */
  function Deplete(c: Config, t: Table, p: nat, k: nat): Table
    requires WellFormed(c, t) && p < c.nproc && k < c.levels
  {
    var q := t.active[k].queue;
    RefillSized(c, t, q);
    PlaceAll(c, Left(c, t, k, [], q), Movers(t.procs, q, p), k + 1)
  }

  /** The process that ran, if it used up its quantum. */
  function Spent(t: Table, p: nat): seq<nat>
    requires p < |t.procs|
  {
    if t.procs[p].ticksLeft <= 0 then [p] else []
  }

  /** Level `k` has quantum left: the process goes to its own tail, or a level down when it used
      up its quantum, which is then refilled. */
  function Requeue(c: Config, t: Table, p: nat, k: nat): Table
    requires WellFormed(c, t) && p < c.nproc && k < c.levels
  {
    var q := t.active[k].queue;
    RefillSized(c, t, Spent(t, p));
    if t.procs[p].state == ZOMBIE then Left(c, t, k, q, Spent(t, p))
    else Place(c, Left(c, t, k, Without(q, p), Spent(t, p)), p, k + |Spent(t, p)|)
  }

  function HandBack(c: Config, t: Table, p: nat, k: nat): Table
    requires WellFormed(c, t) && p < c.nproc && k < c.levels
  {
    if t.active[k].ticksLeft <= 0 then Deplete(c, t, p, k) else Requeue(c, t, p, k)
  }

  // ---------- scheduling and the set swap ----------

  /** The position of the first RUNNABLE process of a queue. */
  function FirstRunnable(procs: seq<Proc>, q: seq<nat>): (r: Option<nat>)
    requires Slots(q, |procs|)
    ensures r.Some? ==> r.value < |q| && procs[q[r.value]].state == RUNNABLE
    ensures forall i :: 0 <= i < (if r.Some? then r.value else |q|) ==> procs[q[i]].state != RUNNABLE
  {
    if q == [] then None
    else if procs[q[0]].state == RUNNABLE then Some(0)
    else match FirstRunnable(procs, q[1..])
      case Some(i) => Some(i + 1)
      case None => None
  }

  /** The first level from `k` on with a RUNNABLE process, and its position there. */
  function Pick(procs: seq<Proc>, ls: seq<Level>, k: nat): (r: Option<(nat, nat)>)
    requires SlotsIn(ls, |procs|)
    ensures r.Some? ==> k <= r.value.0 < |ls| && r.value.1 < |ls[r.value.0].queue|
                        && procs[ls[r.value.0].queue[r.value.1]].state == RUNNABLE
                        && forall i :: 0 <= i < r.value.1 ==> procs[ls[r.value.0].queue[i]].state != RUNNABLE
    ensures forall j, i :: k <= j < (if r.Some? then r.value.0 else |ls|) && 0 <= i < |ls[j].queue|
                        ==> procs[ls[j].queue[i]].state != RUNNABLE
    decreases |ls| - k
  {
    if k >= |ls| then None
    else match FirstRunnable(procs, ls[k].queue)
      case Some(i) => Some((k, i))
      case None => Pick(procs, ls, k + 1)
  }

  function Flat(ls: seq<Level>): (r: seq<nat>) {
    if ls == [] then [] else ls[0].queue + Flat(ls[1..])
  }

  lemma FlatSlots(ls: seq<Level>, n: nat)
    requires SlotsIn(ls, n)
    ensures Slots(Flat(ls), n)
  {
    if ls == [] {
    } else {
      assert SlotsIn(ls[1..], n);
      FlatSlots(ls[1..], n);
    }
  }

  /** The sets have traded places and the old active set is emptied, its processes refilled. */
  function Traded(c: Config, t: Table): Table
    requires Slots(Flat(t.active), |t.procs|)
  {
    Table(Refill(c, t.procs, Flat(t.active)), t.expired, seq(c.levels, _ => Level(c.levelQuantum, [])))
  }

  /** The sets trade places; everything in the old active set is refilled and put back at its
      default level, in level and queue order. */
  function Swap(c: Config, t: Table): Table
    requires WellFormed(c, t)
  {
    FlatSlots(t.active, c.nproc);
    RefillSized(c, t, Flat(t.active));
    PlaceAll(c, Traded(c, t), Flat(t.active), 0)
  }

  // ---------- process table operations ----------

  function Wake(procs: seq<Proc>, chan: Chan): (r: seq<Proc>)
    ensures |r| == |procs|
    ensures forall i :: 0 <= i < |r| ==>
      r[i] == if procs[i].state == SLEEPING && procs[i].chan == chan then procs[i].(state := RUNNABLE) else procs[i]
  {
    seq(|procs|, i requires 0 <= i < |procs| =>
      if procs[i].state == SLEEPING && procs[i].chan == chan then procs[i].(state := RUNNABLE) else procs[i])
  }

  function ChanOf(parent: Option<nat>): Chan {
    if parent.Some? then ProcAddr(parent.value) else NoChan
  }

  /** The children of `p` become children of `init`. */
  function Adopt(procs: seq<Proc>, p: nat, init: nat): (r: seq<Proc>)
    ensures |r| == |procs|
    ensures forall i :: 0 <= i < |r| ==>
      r[i] == if procs[i].parent == Some(p) then procs[i].(parent := Some(init)) else procs[i]
  {
    seq(|procs|, i requires 0 <= i < |procs| =>
      if procs[i].parent == Some(p) then procs[i].(parent := Some(init)) else procs[i])
  }

  predicate ZombieChild(procs: seq<Proc>, p: nat, i: nat) {
    i < |procs| && procs[i].parent == Some(p) && procs[i].state == ZOMBIE
  }

  predicate HasZombieChild(procs: seq<Proc>, p: nat) {
    exists i :: 0 <= i < |procs| && ZombieChild(procs, p, i)
  }

  predicate HasChild(procs: seq<Proc>, p: nat) {
    exists i :: 0 <= i < |procs| && procs[i].parent == Some(p)
  }

  /** Wake the parent, hand the children over to init and wake init if one of them is a zombie. */
  function ExitFamily(procs: seq<Proc>, p: nat, init: nat): (r: seq<Proc>)
    requires p < |procs|
    ensures |r| == |procs|
  {
    var woken := Wake(procs, ChanOf(procs[p].parent));
    var adopted := Adopt(woken, p, init);
    if HasZombieChild(woken, p) then Wake(adopted, ProcAddr(init)) else adopted
  }

  /** The first slot at or after `i` that satisfies `f`. */
  function FirstSlot(procs: seq<Proc>, f: Proc -> bool, i: nat): (r: Option<nat>)
    ensures r.Some? ==> i <= r.value < |procs| && f(procs[r.value])
    ensures forall j :: i <= j < (if r.Some? then r.value else |procs|) ==> !f(procs[j])
    decreases |procs| - i
  {
    if i >= |procs| then None else if f(procs[i]) then Some(i) else FirstSlot(procs, f, i + 1)
  }

  function Reaped(p: Proc): Proc {
    p.(state := UNUSED, pid := 0, parent := None, killed := false)
  }

  function RemoveFrom(ls: seq<Level>, p: nat, n: nat): (r: seq<Level>)
    requires SlotsIn(ls, n)
    ensures |r| == |ls| && SlotsIn(r, n)
    ensures forall k :: 0 <= k < |r| ==> r[k] == Level(ls[k].ticksLeft, Without(ls[k].queue, p))
  {
    assert forall k :: 0 <= k < |ls| ==> Slots(Without(ls[k].queue, p), n) by {
      forall k | 0 <= k < |ls| ensures Slots(Without(ls[k].queue, p), n) { WithoutSlots(ls[k].queue, p, n); }
    }
    seq(|ls|, k requires 0 <= k < |ls| => Level(ls[k].ticksLeft, Without(ls[k].queue, p)))
  }

  function WithProc(t: Table, i: nat, p: Proc): Table
    requires i < |t.procs|
  {
    t.(procs := t.procs[i := p])
  }

  // ---------- the steps ----------

  /** The process running on the CPU leaves it in the state `p`. */
  function Leave(c: Config, s: State, p: Proc): State
    requires WellFormed(c, s.table) && CpuInRange(c, s) && s.cpu.Running? && p.defaultLevel < c.levels
  {
    s.(table := HandBack(c, WithProc(s.table, s.cpu.proc, p), s.cpu.proc, s.cpu.level), cpu := Scheduling)
  }

  function DoForkBegin(c: Config, s: State): State {
    match FirstSlot(s.table.procs, (p: Proc) => p.state == UNUSED, 0)
    case None => s
    case Some(i) =>
      var embryo := s.table.procs[i].(state := EMBRYO, pid := s.nextpid, ticksLeft := c.procQuantum,
                                      defaultLevel := c.startingLevel);
      s.(table := WithProc(s.table, i, embryo), nextpid := s.nextpid + 1)
  }

  function DoForkCommit(c: Config, s: State, slot: nat, level: nat): State
    requires WellFormed(c, s.table) && s.cpu.Running? && slot < c.nproc && level < c.levels
  {
    var child := s.table.procs[slot].(parent := Some(s.cpu.proc), defaultLevel := level, state := RUNNABLE);
    s.(table := Place(c, WithProc(s.table, slot, child), slot, level))
  }

  function ExitTable(c: Config, t: Table, p: nat, init: nat): Table
    requires WellFormed(c, t) && p < c.nproc
  {
    var procs := ExitFamily(t.procs, p, init);
    Table(procs[p := procs[p].(state := ZOMBIE)], RemoveFrom(t.active, p, c.nproc), RemoveFrom(t.expired, p, c.nproc))
  }

  function DoExit(c: Config, s: State): State
    requires WellFormed(c, s.table) && CpuInRange(c, s) && s.cpu.Running?
  {
    s.(table := HandBack(c, ExitTable(c, s.table, s.cpu.proc, s.initproc), s.cpu.proc, s.cpu.level), cpu := Scheduling)
  }

  function GoToSleep(c: Config, s: State, chan: Chan): State
    requires WellFormed(c, s.table) && CpuInRange(c, s) && s.cpu.Running?
  {
    Leave(c, s, s.table.procs[s.cpu.proc].(state := SLEEPING, chan := chan))
  }

  /** The zombie child that `wait` reaps: the first in the table. */
  function ZombieOf(procs: seq<Proc>, p: nat): (r: Option<nat>)
    ensures r.Some? ==> r.value < |procs| && procs[r.value].parent == Some(p) && procs[r.value].state == ZOMBIE
    ensures r.None? ==> forall j :: 0 <= j < |procs| ==> !(procs[j].parent == Some(p) && procs[j].state == ZOMBIE)
  {
    FirstSlot(procs, (x: Proc) => x.parent == Some(p) && x.state == ZOMBIE, 0)
  }

  /** What one round of `wait` returns: a child's pid, -1, or nothing yet because the process sleeps. */
  function WaitResult(procs: seq<Proc>, p: nat): Option<int>
    requires p < |procs|
  {
    match ZombieOf(procs, p)
    case Some(i) => Some(procs[i].pid as int)
    case None => if !HasChild(procs, p) || procs[p].killed then Some(-1) else None
  }

  function DoWait(c: Config, s: State): State
    requires WellFormed(c, s.table) && CpuInRange(c, s) && s.cpu.Running?
  {
    var procs, p := s.table.procs, s.cpu.proc;
    match ZombieOf(procs, p)
    case Some(i) => s.(table := WithProc(s.table, i, Reaped(procs[i])))
    case None =>
      if !HasChild(procs, p) || procs[p].killed then s
      else GoToSleep(c, s, ProcAddr(p))
  }

  function Killed(p: Proc): Proc {
    p.(killed := true, state := if p.state == SLEEPING then RUNNABLE else p.state)
  }

  function DoKill(s: State, pid: nat): State {
    match FirstSlot(s.table.procs, (x: Proc) => x.pid == pid, 0)
    case None => s
    case Some(i) => s.(table := WithProc(s.table, i, Killed(s.table.procs[i])))
  }

  function DoYield(c: Config, s: State): State
    requires WellFormed(c, s.table) && CpuInRange(c, s) && s.cpu.Running?
  {
    Leave(c, s, s.table.procs[s.cpu.proc].(state := RUNNABLE))
  }

  /** One tick charged to process `p` and to level `k`. */
  function Charge(t: Table, p: nat, k: nat): Table
    requires p < |t.procs| && k < |t.active|
  {
    t.(procs := t.procs[p := t.procs[p].(ticksLeft := t.procs[p].ticksLeft - 1)],
       active := t.active[k := t.active[k].(ticksLeft := t.active[k].ticksLeft - 1)])
  }

  /** The timer interrupt charges the running process and its level, and forces a yield when
      either has run out. */
  function DoTick(c: Config, s: State): State
    requires WellFormed(c, s.table) && CpuInRange(c, s) && s.cpu.Running?
  {
    var p, k := s.cpu.proc, s.cpu.level;
    var s1 := s.(table := Charge(s.table, p, k));
    if s1.table.procs[p].ticksLeft <= 0 || s1.table.active[k].ticksLeft <= 0 then DoYield(c, s1) else s1
  }

  /** A process resuming from `sleep` clears its channel before it releases the lock. */
  function Dispatch(s: State, p: nat, k: nat): State
    requires p < |s.table.procs|
  {
    s.(table := WithProc(s.table, p, s.table.procs[p].(state := RUNNING, chan := NoChan)), cpu := Running(p, k))
  }

  function DoSchedule(c: Config, s: State): State
    requires WellFormed(c, s.table)
  {
    match Pick(s.table.procs, s.table.active, 0)
    case Some((k, i)) => Dispatch(s, s.table.active[k].queue[i], k)
    case None => s.(table := Swap(c, s.table))
  }

  // ---------- the panics of the queues ----------

  /** A level that is open to one more process. */
  predicate Open(c: Config, l: Level) { l.ticksLeft > 0 && |l.queue| < c.nproc }

  predicate SomeOpen(c: Config, ls: seq<Level>, from: nat) { exists k :: from <= k < |ls| && Open(c, ls[k]) }

  /** `find_available_queue` panics: no active level from the floor or the default level on is open,
      and no expired level from the default level on. */
  predicate NoLevelFor(c: Config, t: Table, p: nat, floor: nat)
    requires Sized(c, t) && p < c.nproc
  {
    var d := t.procs[p].defaultLevel;
    !SomeOpen(c, t.active, Max(floor, d)) && !SomeOpen(c, t.expired, d)
  }

  predicate PlaceAllFails(c: Config, t: Table, ps: seq<nat>, floor: nat)
    requires Sized(c, t) && Slots(ps, c.nproc)
    decreases |ps|
  {
    ps != [] && (NoLevelFor(c, t, ps[0], floor) || PlaceAllFails(c, Place(c, t, ps[0], floor), ps[1..], floor))
  }

  /** A panic on the way from `sched` back to the loop of the scheduler: no level for a process on the
      move, or a process to be requeued that is not in the queue it ran from. */
  predicate HandBackFails(c: Config, t: Table, p: nat, k: nat)
    requires WellFormed(c, t) && p < c.nproc && k < c.levels
  {
    var q := t.active[k].queue;
    RefillSized(c, t, q);
    RefillSized(c, t, Spent(t, p));
    if t.active[k].ticksLeft <= 0 then PlaceAllFails(c, Left(c, t, k, [], q), Movers(t.procs, q, p), k + 1)
    else
      && t.procs[p].state != ZOMBIE
      && (p !in q || NoLevelFor(c, Left(c, t, k, Without(q, p), Spent(t, p)), p, k + |Spent(t, p)|))
  }

  predicate LeaveFails(c: Config, s: State, p: Proc)
    requires WellFormed(c, s.table) && CpuInRange(c, s) && s.cpu.Running? && p.defaultLevel < c.levels
  {
    HandBackFails(c, WithProc(s.table, s.cpu.proc, p), s.cpu.proc, s.cpu.level)
  }

  predicate SwapFails(c: Config, t: Table)
    requires WellFormed(c, t)
  {
    FlatSlots(t.active, c.nproc);
    RefillSized(c, t, Flat(t.active));
    PlaceAllFails(c, Traded(c, t), Flat(t.active), 0)
  }

  /** The step runs into a panic of `enqueue_proc`, `unqueue_proc` or `find_available_queue`. */
  predicate QueueFails(c: Config, s: State, step: Step)
    requires WellFormed(c, s.table) && CpuInRange(c, s)
  {
    Whole(QueueFailsFacts(c, s, step))
  }

  predicate QueueFailsFacts(c: Config, s: State, step: Step)
    requires WellFormed(c, s.table) && CpuInRange(c, s)
  {
    if step == Schedule then s.cpu == Scheduling && Pick(s.table.procs, s.table.active, 0) == None && SwapFails(c, s.table)
    else
      && s.cpu.Running?
      && var p, k := s.table.procs[s.cpu.proc], s.cpu.level;
      match step
      case Tick =>
        && (p.ticksLeft <= 1 || s.table.active[k].ticksLeft <= 1)
        && LeaveFails(c, s.(table := Charge(s.table, s.cpu.proc, k)), p.(ticksLeft := p.ticksLeft - 1, state := RUNNABLE))
      case Yield => LeaveFails(c, s, p.(state := RUNNABLE))
      case Sleep(a) => LeaveFails(c, s, p.(state := SLEEPING, chan := Addr(a)))
      case Wait =>
        && ZombieOf(s.table.procs, s.cpu.proc) == None
        && HasChild(s.table.procs, s.cpu.proc) && !p.killed
        && LeaveFails(c, s, p.(state := SLEEPING, chan := ProcAddr(s.cpu.proc)))
      case Exit => HandBackFails(c, ExitTable(c, s.table, s.cpu.proc, s.initproc), s.cpu.proc, k)
      case ForkCommit(i, level) =>
        && i < c.nproc && s.table.procs[i].state == EMBRYO && 0 <= level < c.levels
        && NoLevelFor(c, WithProc(s.table, i, s.table.procs[i].(defaultLevel := level)), i, level)
      case _ => false
  }

  /** Only wakeups and timer interrupts happen while the CPU is in the scheduler loop. */
  predicate NeedsProcess(step: Step) { !step.Schedule? && !step.Wakeup? && !step.Tick? }

  function Next(c: Config, s: State, step: Step): Outcome {
    var t := s.table;
    if !WellFormed(c, t) || !CpuInRange(c, s) then Panic
    else if NeedsProcess(step) && !s.cpu.Running? then Disabled
    else if QueueFails(c, s, step) then Panic
    else match step
      case Schedule => if s.cpu.Running? then Disabled else Ok(DoSchedule(c, s))
      case Wakeup(a) => Ok(s.(table := t.(procs := Wake(t.procs, Addr(a)))))
      case Tick => if s.cpu.Running? then Ok(DoTick(c, s)) else Ok(s)
      case ForkBegin => Ok(DoForkBegin(c, s))
      case ForkAbort(i) =>
        if i < c.nproc && t.procs[i].state == EMBRYO
        then Ok(s.(table := WithProc(t, i, t.procs[i].(state := UNUSED)))) else Disabled
      case ForkCommit(i, level) =>
        if i < c.nproc && t.procs[i].state == EMBRYO && 0 <= level < c.levels
        then Ok(DoForkCommit(c, s, i, level)) else Disabled
      case Exit => if s.cpu.proc == s.initproc then Panic else Ok(DoExit(c, s))
      case Wait => Ok(DoWait(c, s))
      case Sleep(a) => Ok(GoToSleep(c, s, Addr(a)))
      case Kill(pid) => Ok(DoKill(s, pid))
      case Yield => Ok(DoYield(c, s))
  }

  /** After `pinit` and `userinit`: one RUNNABLE process at its starting level. */
  function Boot(c: Config): State {
    State(Table(
            seq(c.nproc, i =>
              if i == 0 then Proc(RUNNABLE, 1, None, NoChan, false, c.procQuantum, c.startingLevel)
              else Proc(UNUSED, 0, None, NoChan, false, 0, 0)),
            seq(c.levels, k => Level(c.levelQuantum, if k == c.startingLevel then [0] else [])),
            seq(c.levels, k => Level(c.levelQuantum, []))),
          Scheduling, 0, 2)
  }
}
