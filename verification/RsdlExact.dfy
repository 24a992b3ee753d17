/**
What each step of the process table does, said field by field and queue by queue from the state
before it: who keeps the CPU, where a process goes, which fields change, and that nothing else does.
*/
module RsdlExact {
  import opened Base
  import opened Rsdl
  import opened RsdlInvariant
  import opened RsdlRuns
  import opened RsdlPanics
  import opened RsdlOrder

  // ---------- the words ----------

  /** `q` without its entry `i`, the rest in order. */
  function Drop(q: seq<nat>, i: nat): seq<nat>
    requires i < |q|
  {
    q[..i] + q[i + 1..]
  }

  /** `us` is `ls` with `ps` in order at the tail of level `k`. */
  predicate Joined(ls: seq<Level>, us: seq<Level>, k: nat, ps: seq<nat>) {
    && |us| == |ls| && k < |ls| && us[k] == Level(ls[k].ticksLeft, ls[k].queue + ps)
    && forall j :: 0 <= j < |ls| && j != k ==> us[j] == ls[j]
  }

  /** Level `k` is the first from `from` on with quantum. */
  predicate FirstFrom(ls: seq<Level>, from: nat, k: nat) {
    from <= k < |ls| && ls[k].ticksLeft > 0 && forall j :: from <= j < k ==> ls[j].ticksLeft <= 0
  }

  predicate NoneFrom(ls: seq<Level>, from: nat) { forall j :: from <= j < |ls| ==> ls[j].ticksLeft <= 0 }

  /** Process `p` went to the tail of the first active level with quantum from `from` on, or, if there
      is none, to the tail of level `d` of the expired set; no other queue changed. */
  ghost predicate Lands(active: seq<Level>, expired: seq<Level>, u: Table, p: nat, from: nat, d: nat) {
    || (u.expired == expired && exists k: nat :: FirstFrom(active, from, k) && Joined(active, u.active, k, [p]))
    || (u.active == active && NoneFrom(active, from) && Joined(expired, u.expired, d, [p]))
  }

  /** All processes but `p` are as they were. */
  predicate OthersSame(a: seq<Proc>, b: seq<Proc>, p: nat) {
    |a| == |b| && forall x :: 0 <= x < |a| && x != p ==> b[x] == a[x]
  }

  /** `p`, entry `i` of level `k`, gave the CPU back and its level has quantum left: with ticks left it
      goes to the tail of its level; else it is refilled and goes down, or to the expired set. */
  ghost predicate Requeued(c: Config, t: Table, u: Table, p: nat, k: nat, i: nat)
    requires p < |t.procs| && k < |t.active| && i < |t.active[k].queue|
  {
    var proc, rest := t.procs[p], t.active[k := Level(t.active[k].ticksLeft, Drop(t.active[k].queue, i))];
    && OthersSame(t.procs, u.procs, p)
    && if proc.ticksLeft > 0 then
         u.procs[p] == proc && u.expired == t.expired && Joined(rest, u.active, k, [p])
       else
         u.procs[p] == proc.(ticksLeft := c.procQuantum) && Lands(rest, t.expired, u, p, k + 1, proc.defaultLevel)
  }

  /** The level is out of quantum: it ends empty, all its processes are refilled and go, in order and
      `p` last, to the first level below with quantum, or each to its default level of the expired set. */
  ghost predicate Migrated(c: Config, t: Table, u: Table, p: nat, k: nat, i: nat)
    requires k < |t.active| && i < |t.active[k].queue| && Slots(t.active[k].queue, |t.procs|) && p < |t.procs|
  {
    var q, moved := t.active[k].queue, Drop(t.active[k].queue, i) + [p];
    var rest := t.active[k := Level(0, [])];
    && |u.procs| == |t.procs|
    && (forall x :: 0 <= x < |t.procs| ==> u.procs[x] == if x in q then t.procs[x].(ticksLeft := c.procQuantum) else t.procs[x])
    && (|| (u.expired == t.expired && exists j: nat :: FirstFrom(t.active, k + 1, j) && Joined(rest, u.active, j, moved))
        || (&& NoneFrom(t.active, k + 1) && u.active == rest && |u.expired| == |t.expired|
            && forall d :: 0 <= d < |t.expired| ==>
              u.expired[d] == Level(t.expired[d].ticksLeft, t.expired[d].queue + WithDefault(t.procs, moved, d))))
  }

  ghost predicate HandedBack(c: Config, t: Table, u: Table, p: nat, k: nat, i: nat)
    requires k < |t.active| && i < |t.active[k].queue| && Slots(t.active[k].queue, |t.procs|) && p < |t.procs|
  {
    Whole(if t.active[k].ticksLeft > 0 then Requeued(c, t, u, p, k, i) else Migrated(c, t, u, p, k, i))
  }

  // ---------- giving the CPU back ----------

  lemma OnlyEntry(c: Config, t: Table, p: nat, k: nat, i: nat)
    requires Returning(c, t, p, k) && i < |t.active[k].queue| && t.active[k].queue[i] == p
    ensures Without(t.active[k].queue, p) == Drop(t.active[k].queue, i) && t.procs[p].state != ZOMBIE
  {
    var q := t.active[k].queue;
    hide ActiveOk, ExpiredOk;
    LeavesOnce(c, t, p, k);
    assert Count(t.active, p) + Count(t.expired, p) + multiset([])[p] <= 1;
    CountAtLeast(t.active, k, p);
    OnceBefore(q, p, i);
    WithoutAt(q, p, i);
  }

  lemma OnceBefore(q: seq<nat>, p: nat, i: nat)
    requires multiset(q)[p] <= 1 && i < |q| && q[i] == p
    ensures p !in q[..i]
  {
    assert q == q[..i] + q[i..];
    MemberCount(q[..i], p);
    MemberCount(q[i..], p);
    assert q[i..][0] == p;
  }

  lemma PlaceLands(c: Config, t: Table, p: nat, floor: nat)
    requires Sized(c, t) && p < c.nproc && t.procs[p].defaultLevel <= floor
    ensures var u := Place(c, t, p, floor);
      u.procs == t.procs && Lands(t.active, t.expired, u, p, floor, t.procs[p].defaultLevel)
  {
    match NextWithQuantum(t.active, floor)
    case Some(k) =>
      assert FirstFrom(t.active, floor, k);
      assert Joined(t.active, Place(c, t, p, floor).active, k, [p]);
    case None =>
      assert NoneFrom(t.active, floor);
  }

  lemma RequeueIs(c: Config, t: Table, p: nat, k: nat, i: nat)
    requires Returning(c, t, p, k) && t.active[k].ticksLeft > 0 && i < |t.active[k].queue| && t.active[k].queue[i] == p
    ensures Requeued(c, t, Requeue(c, t, p, k), p, k, i)
  {
    hide Partition, ActiveOk, ExpiredOk, Place, Lands;
    OnlyEntry(c, t, p, k, i);
    RefillAt(c, t.procs, Spent(t, p));
    RefillSized(c, t, Spent(t, p));
    var proc := t.procs[p];
    var left := Left(c, t, k, Drop(t.active[k].queue, i), Spent(t, p));
    PlaceLands(c, left, p, if proc.ticksLeft > 0 then k else k + 1);
    if proc.ticksLeft > 0 { LandsHere(left.active, left.expired, Requeue(c, t, p, k), p, k, proc.defaultLevel); }
  }

  /** A level that has quantum itself is the first from it on that has. */
  lemma LandsHere(active: seq<Level>, expired: seq<Level>, u: Table, p: nat, k: nat, d: nat)
    requires Lands(active, expired, u, p, k, d) && k < |active| && active[k].ticksLeft > 0
    ensures u.expired == expired && Joined(active, u.active, k, [p])
  {
  }

  lemma MigrateIs(c: Config, t: Table, p: nat, k: nat, i: nat)
    requires Returning(c, t, p, k) && t.active[k].ticksLeft <= 0 && i < |t.active[k].queue| && t.active[k].queue[i] == p
    ensures Migrated(c, t, Deplete(c, t, p, k), p, k, i)
  {
    hide Partition, ActiveOk, ExpiredOk, Deplete, Refill;
    var q := t.active[k].queue;
    OnlyEntry(c, t, p, k, i);
    RefillAt(c, t.procs, q);
    assert Movers(t.procs, q, p) == Drop(q, i) + [p];
    match NextWithQuantum(t.active, k + 1)
    case Some(j) =>
      DepletionToActive(c, t, p, k, j);
      assert FirstFrom(t.active, k + 1, j);
      assert Joined(t.active[k := Level(0, [])], Deplete(c, t, p, k).active, j, Drop(q, i) + [p]);
    case None =>
      DepletionToExpired(c, t, p, k);
      assert NoneFrom(t.active, k + 1);
  }

  lemma HandBackIs(c: Config, t: Table, p: nat, k: nat, i: nat)
    requires Returning(c, t, p, k) && i < |t.active[k].queue| && t.active[k].queue[i] == p
    ensures HandedBack(c, t, HandBack(c, t, p, k), p, k, i)
  {
    hide Partition, ActiveOk, ExpiredOk, Requeue, Deplete, Requeued, Migrated;
    if t.active[k].ticksLeft > 0 { RequeueIs(c, t, p, k, i); } else { MigrateIs(c, t, p, k, i); }
  }

  /** A process runs, and is entry `i` of the queue of its level. */
  predicate RunsAt(c: Config, s: State, i: nat) {
    && s.cpu.Running? && s.cpu.proc < |s.table.procs| == c.nproc && s.cpu.level < |s.table.active|
    && i < |s.table.active[s.cpu.level].queue| && s.table.active[s.cpu.level].queue[i] == s.cpu.proc
    && Slots(s.table.active[s.cpu.level].queue, c.nproc)
  }

  lemma RunsSomewhere(c: Config, s: State) returns (i: nat)
    requires Inv(c, s) && s.cpu.Running?
    ensures RunsAt(c, s, i)
  {
    RunningInRange(c, s);
    i :| i < |s.table.active[s.cpu.level].queue| && s.table.active[s.cpu.level].queue[i] == s.cpu.proc;
  }

  /** The running process left the CPU as `proc`, and was handed back to the queues. */
  ghost predicate GaveBack(c: Config, s: State, t: State, proc: Proc, i: nat)
    requires RunsAt(c, s, i)
  {
    && t.cpu == Scheduling && t.initproc == s.initproc && t.nextpid == s.nextpid
    && HandedBack(c, s.table.(procs := s.table.procs[s.cpu.proc := proc]), t.table, s.cpu.proc, s.cpu.level, i)
  }

  lemma LeaveIs(c: Config, s: State, proc: Proc, i: nat)
    requires Inv(c, s) && RunsAt(c, s, i) && WellFormed(c, s.table) && CpuInRange(c, s)
    requires proc.state == SLEEPING || proc.state == RUNNABLE
    requires proc.defaultLevel == s.table.procs[s.cpu.proc].defaultLevel && proc.ticksLeft == s.table.procs[s.cpu.proc].ticksLeft
    ensures proc.defaultLevel < c.levels && GaveBack(c, s, Leave(c, s, proc), proc, i)
  {
    hide HandedBack, HandBack, Inv;
    RunningInRange(c, s);
    RunningReturns(c, s, WithProc(s.table, s.cpu.proc, proc));
    HandBackIs(c, WithProc(s.table, s.cpu.proc, proc), s.cpu.proc, s.cpu.level, i);
  }

  /** The timer interrupt. With more than one tick left to the process and to its level the process
      keeps the CPU, every queue is as it was, and one tick is gone from each. With one left to either,
      and only then, the process, RUNNABLE and charged, gives the CPU back. */
  lemma TickExact(c: Config, s: State, i: nat)
    requires Inv(c, s) && RunsAt(c, s, i)
    ensures Next(c, s, Tick).Ok?
    ensures var t, p, k := Next(c, s, Tick).next, s.cpu.proc, s.cpu.level;
      var proc, level := s.table.procs[p], s.table.active[k];
      var charged := s.table.(procs := s.table.procs[p := proc.(ticksLeft := proc.ticksLeft - 1)],
                              active := s.table.active[k := Level(level.ticksLeft - 1, level.queue)]);
      && (t.cpu == Running(p, k) <==> proc.ticksLeft > 1 && level.ticksLeft > 1)
      && (t.cpu == Scheduling <==> proc.ticksLeft <= 1 || level.ticksLeft <= 1)
      && (t.cpu == Running(p, k) ==> t == s.(table := charged))
      && (t.cpu == Scheduling ==>
            GaveBack(c, s.(table := charged), t, proc.(ticksLeft := proc.ticksLeft - 1, state := RUNNABLE), i))
  {
    hide HandedBack, HandBack, InvFacts, QueueFails;
    RunningInRange(c, s);
    QueuesNeverFail(c, s, Tick);
    TickedReturns(c, s);
    HandBackIs(c, Ticked(s), s.cpu.proc, s.cpu.level, i);
  }

  /** A timer interrupt while no process runs charges nobody. */
  lemma IdleTick(c: Config, s: State)
    requires Inv(c, s) && s.cpu == Scheduling
    ensures Next(c, s, Tick) == Ok(s)
  {
    RunningInRange(c, s);
  }

  lemma YieldExact(c: Config, s: State, i: nat)
    requires Inv(c, s) && RunsAt(c, s, i)
    ensures Next(c, s, Yield).Ok?
    ensures GaveBack(c, s, Next(c, s, Yield).next, s.table.procs[s.cpu.proc].(state := RUNNABLE), i)
  {
    hide InvFacts, QueueFails, GaveBack, Leave;
    RunningInRange(c, s);
    QueuesNeverFail(c, s, Yield);
    LeaveIs(c, s, s.table.procs[s.cpu.proc].(state := RUNNABLE), i);
  }

  lemma SleepExact(c: Config, s: State, address: nat, i: nat)
    requires Inv(c, s) && RunsAt(c, s, i)
    ensures Next(c, s, Sleep(address)).Ok?
    ensures GaveBack(c, s, Next(c, s, Sleep(address)).next, s.table.procs[s.cpu.proc].(state := SLEEPING, chan := Addr(address)), i)
  {
    hide InvFacts, QueueFails, GaveBack, Leave;
    RunningInRange(c, s);
    QueuesNeverFail(c, s, Sleep(address));
    LeaveIs(c, s, s.table.procs[s.cpu.proc].(state := SLEEPING, chan := Addr(address)), i);
  }

  // ---------- fork ----------

  /** `t` differs from `s` in process `x`, which is now `proc`. */
  predicate OnlyProc(s: State, t: State, x: nat, proc: Proc) {
    && x < |s.table.procs| && OthersSame(s.table.procs, t.table.procs, x) && t.table.procs[x] == proc
    && t.table.active == s.table.active && t.table.expired == s.table.expired
    && t.cpu == s.cpu && t.initproc == s.initproc
  }

  /** The first slot in a state or with a pid. */
  predicate FirstThat(procs: seq<Proc>, f: Proc -> bool, x: nat) {
    x < |procs| && f(procs[x]) && forall y :: 0 <= y < x ==> !f(procs[y])
  }

  /** `allocproc` takes the first UNUSED slot, if there is one, and the next pid; the slot keeps its
      mark of having been killed. */
  lemma ForkBeginExact(c: Config, s: State, x: nat)
    requires Inv(c, s) && s.cpu.Running? && FirstThat(s.table.procs, (p: Proc) => p.state == UNUSED, x)
    ensures Next(c, s, ForkBegin).Ok?
    ensures var t, was := Next(c, s, ForkBegin).next, s.table.procs[x];
      && OnlyProc(s, t, x, Proc(EMBRYO, s.nextpid, was.parent, was.chan, was.killed, c.procQuantum, c.startingLevel))
      && t.nextpid == s.nextpid + 1
  {
    hide InvFacts;
    RunningInRange(c, s);
  }

  lemma ForkBeginNone(c: Config, s: State)
    requires Inv(c, s) && s.cpu.Running? && forall x :: 0 <= x < |s.table.procs| ==> s.table.procs[x].state != UNUSED
    ensures Next(c, s, ForkBegin) == Ok(s)
  {
    hide InvFacts;
    RunningInRange(c, s);
  }

  /** The end of `priofork`: the child is RUNNABLE, a child of the caller, with the level asked for as
      its default level, and stands last on the first active level from there on with quantum, or on
      its level of the expired set. Nothing else changes, and the caller now has a child to wait for. */
  lemma ForkCommitExact(c: Config, s: State, slot: nat, level: nat)
    requires Inv(c, s) && s.cpu.Running? && slot < c.nproc && level < c.levels
    requires slot < |s.table.procs| && s.table.procs[slot].state == EMBRYO && s.cpu.proc < |s.table.procs|
    ensures Next(c, s, ForkCommit(slot, level)).Ok?
    ensures var t, was := Next(c, s, ForkCommit(slot, level)).next, s.table.procs[slot];
      && OthersSame(s.table.procs, t.table.procs, slot)
      && t.table.procs[slot] == Proc(RUNNABLE, was.pid, Some(s.cpu.proc), was.chan, was.killed, was.ticksLeft, level)
      && Lands(s.table.active, s.table.expired, t.table, slot, level, level)
      && t.cpu == s.cpu && t.initproc == s.initproc && t.nextpid == s.nextpid
      && (WaitResult(t.table.procs, s.cpu.proc) == Some(-1) ==> s.table.procs[s.cpu.proc].killed)
  {
    hide InvFacts, QueueFails, Place, Lands;
    RunningInRange(c, s);
    QueuesNeverFail(c, s, ForkCommit(slot, level));
    var child := s.table.procs[slot].(parent := Some(s.cpu.proc), defaultLevel := level, state := RUNNABLE);
    var u := WithProc(s.table, slot, child);
    assert Sized(c, u);
    PlaceLands(c, u, slot, level);
    var procs := Next(c, s, ForkCommit(slot, level)).next.table.procs;
    assert procs[slot].parent == Some(s.cpu.proc);
  }

  /** `priofork` gives up: the slot is UNUSED again, and otherwise as it was. */
  lemma ForkAbortExact(c: Config, s: State, slot: nat)
    requires Inv(c, s) && s.cpu.Running? && slot < c.nproc && slot < |s.table.procs| && s.table.procs[slot].state == EMBRYO
    ensures Next(c, s, ForkAbort(slot)).Ok?
    ensures var t := Next(c, s, ForkAbort(slot)).next;
      OnlyProc(s, t, slot, s.table.procs[slot].(state := UNUSED)) && t.nextpid == s.nextpid
  {
    hide InvFacts;
    RunningInRange(c, s);
  }

  // ---------- wait, kill, wakeup, exit ----------

  /** `wait` with a zombie child, the first being in slot `x`: the slot is free, with no pid, no parent
      and no mark of having been killed, and its pid is the result. */
  lemma WaitReaps(c: Config, s: State, x: nat)
    requires Inv(c, s) && s.cpu.Running? && s.cpu.proc < |s.table.procs|
    requires FirstThat(s.table.procs, (p: Proc) => p.parent == Some(s.cpu.proc) && p.state == ZOMBIE, x)
    ensures Next(c, s, Wait).Ok? && WaitResult(s.table.procs, s.cpu.proc) == Some(s.table.procs[x].pid as int)
    ensures var t, was := Next(c, s, Wait).next, s.table.procs[x];
      && OnlyProc(s, t, x, Proc(UNUSED, 0, None, was.chan, false, was.ticksLeft, was.defaultLevel))
      && t.nextpid == s.nextpid
  {
    hide InvFacts, QueueFails;
    RunningInRange(c, s);
    QueuesNeverFail(c, s, Wait);
  }

  /** Without one: -1 if there is no child or the caller is killed, and nothing changes; else the
      caller sleeps on its own slot, which an exiting child wakes. */
  lemma WaitSleeps(c: Config, s: State, i: nat)
    requires Inv(c, s) && RunsAt(c, s, i)
    requires forall x :: 0 <= x < |s.table.procs| ==>
      !(s.table.procs[x].parent == Some(s.cpu.proc) && s.table.procs[x].state == ZOMBIE)
    ensures Next(c, s, Wait).Ok?
    ensures var t, p := Next(c, s, Wait).next, s.cpu.proc;
      if s.table.procs[p].killed || (forall x :: 0 <= x < |s.table.procs| ==> s.table.procs[x].parent != Some(p)) then
        t == s && WaitResult(s.table.procs, p) == Some(-1)
      else
        GaveBack(c, s, t, s.table.procs[p].(state := SLEEPING, chan := ProcAddr(p)), i) && WaitResult(s.table.procs, p) == None
  {
    hide InvFacts, QueueFails, GaveBack, Leave;
    RunningInRange(c, s);
    QueuesNeverFail(c, s, Wait);
    LeaveIs(c, s, s.table.procs[s.cpu.proc].(state := SLEEPING, chan := ProcAddr(s.cpu.proc)), i);
  }

  /** `kill` marks the first slot with the pid, whatever its state, and makes it RUNNABLE if it sleeps. */
  lemma KillExact(c: Config, s: State, pid: nat, x: nat)
    requires Inv(c, s) && s.cpu.Running? && FirstThat(s.table.procs, (p: Proc) => p.pid == pid, x)
    ensures Next(c, s, Kill(pid)).Ok?
    ensures var t, was := Next(c, s, Kill(pid)).next, s.table.procs[x];
      && OnlyProc(s, t, x, Proc(if was.state == SLEEPING then RUNNABLE else was.state, was.pid, was.parent, was.chan, true,
                                was.ticksLeft, was.defaultLevel))
      && t.nextpid == s.nextpid
  {
    hide InvFacts;
    RunningInRange(c, s);
  }

  lemma KillNobody(c: Config, s: State, pid: nat)
    requires Inv(c, s) && s.cpu.Running? && forall x :: 0 <= x < |s.table.procs| ==> s.table.procs[x].pid != pid
    ensures Next(c, s, Kill(pid)) == Ok(s)
  {
    hide InvFacts;
    RunningInRange(c, s);
  }

  /** `wakeup` makes exactly the sleepers on the address RUNNABLE. */
  lemma WakeupExact(c: Config, s: State, address: nat)
    requires Inv(c, s)
    ensures Next(c, s, Wakeup(address)).Ok?
    ensures var t := Next(c, s, Wakeup(address)).next;
      && t == s.(table := s.table.(procs := t.table.procs)) && |t.table.procs| == |s.table.procs|
      && forall x :: 0 <= x < |s.table.procs| ==>
        var was := s.table.procs[x];
        t.table.procs[x] == if was.state == SLEEPING && was.chan == Addr(address) then was.(state := RUNNABLE) else was
  {
    hide InvFacts;
    RunningInRange(c, s);
  }

  /** Some child of `p` is a zombie. */
  predicate LeavesZombie(procs: seq<Proc>, p: nat) {
    exists y :: 0 <= y < |procs| && procs[y].parent == Some(p) && procs[y].state == ZOMBIE
  }

  /** Whom the exit of `p` wakes: its parent, if it waits, and init, if it waits and gets a zombie. */
  predicate WokenByExit(procs: seq<Proc>, x: nat, p: nat, init: nat)
    requires x < |procs| && p < |procs|
  {
    && procs[x].state == SLEEPING
    && ((procs[p].parent.Some? && procs[x].chan == ProcAddr(procs[p].parent.value))
        || (LeavesZombie(procs, p) && procs[x].chan == ProcAddr(init)))
  }

  /** `exit`: the process is a ZOMBIE, out of its queue, which closes up, and off the CPU. Its children
      are init's, its parent is awake if it waited, and so is init if it waited and a child it gets is a
      zombie. Nothing else changes. */
  lemma ExitExact(c: Config, s: State, i: nat)
    requires Inv(c, s) && RunsAt(c, s, i) && s.cpu.proc != s.initproc
    ensures Next(c, s, Exit).Ok?
    ensures var t, p, k := Next(c, s, Exit).next, s.cpu.proc, s.cpu.level;
      && t.cpu == Scheduling && t.initproc == s.initproc && t.nextpid == s.nextpid
      && t.table.active == s.table.active[k := Level(s.table.active[k].ticksLeft, Drop(s.table.active[k].queue, i))]
      && t.table.expired == s.table.expired
      && |t.table.procs| == |s.table.procs| && t.table.procs[p] == s.table.procs[p].(state := ZOMBIE)
      && forall x :: 0 <= x < |s.table.procs| && x != p ==>
        var was := s.table.procs[x];
        t.table.procs[x] == was.(parent := if was.parent == Some(p) then Some(s.initproc) else was.parent,
                                 state := if WokenByExit(s.table.procs, x, p, s.initproc) then RUNNABLE else was.state)
  {
    hide InvFacts, QueueFails, Requeue, Deplete, ExitFamily, WokenByExit, Count;
    RunningInRange(c, s);
    QueuesNeverFail(c, s, Exit);
    ExitQueues(c, s, i);
    ExitProcs(c, s);
    var u := ExitTable(c, s.table, s.cpu.proc, s.initproc);
    ZombieRequeue(c, u, s.cpu.proc, s.cpu.level);
  }

  lemma ZombieRequeue(c: Config, u: Table, p: nat, k: nat)
    requires WellFormed(c, u) && p < c.nproc && k < c.levels
    requires u.procs[p].state == ZOMBIE && u.procs[p].ticksLeft > 0 && u.active[k].ticksLeft > 0
    ensures HandBack(c, u, p, k) == u
  {
    assert u.active[k := Level(u.active[k].ticksLeft, u.active[k].queue)] == u.active;
  }

  lemma ExitQueues(c: Config, s: State, i: nat)
    requires Inv(c, s) && RunsAt(c, s, i) && WellFormed(c, s.table) && CpuInRange(c, s)
    ensures var u, k := ExitTable(c, s.table, s.cpu.proc, s.initproc), s.cpu.level;
      && u.active == s.table.active[k := Level(s.table.active[k].ticksLeft, Drop(s.table.active[k].queue, i))]
      && u.expired == s.table.expired
  {
    hide ExitFamily;
    var p, k, t := s.cpu.proc, s.cpu.level, s.table;
    assert Count(t.active, p) + Count(t.expired, p) + multiset([])[p] <= 1;
    CountAtLeast(t.active, k, p);
    MemberCount(t.active[k].queue, p);
    OnceBefore(t.active[k].queue, p, i);
    WithoutAt(t.active[k].queue, p, i);
    forall j | 0 <= j < c.levels && j != k ensures Without(t.active[j].queue, p) == t.active[j].queue {
      InNoOther(t.active, k, j, p);
      WithoutAbsent(t.active[j].queue, p);
    }
    forall j | 0 <= j < c.levels ensures Without(t.expired[j].queue, p) == t.expired[j].queue {
      CountAtLeast(t.expired, j, p);
      MemberCount(t.expired[j].queue, p);
      WithoutAbsent(t.expired[j].queue, p);
    }
    var u := ExitTable(c, t, p, s.initproc);
    assert forall j :: 0 <= j < c.levels && j != k ==> u.active[j] == t.active[j];
    assert forall j :: 0 <= j < c.levels ==> u.expired[j] == t.expired[j];
  }

  /** A process that is queued once is on no second level. */
  lemma {:induction false} InNoOther(ls: seq<Level>, k: nat, j: nat, p: nat)
    requires k < |ls| && j < |ls| && k != j && p in ls[k].queue && Count(ls, p) <= 1
    ensures p !in ls[j].queue
  {
    MemberCount(ls[k].queue, p);
    MemberCount(ls[j].queue, p);
    if k == 0 {
      CountAtLeast(ls[1..], j - 1, p);
    } else if j == 0 {
      CountAtLeast(ls[1..], k - 1, p);
    } else {
      InNoOther(ls[1..], k - 1, j - 1, p);
    }
  }

  lemma ExitProcs(c: Config, s: State)
    requires Inv(c, s) && s.cpu.Running? && WellFormed(c, s.table) && CpuInRange(c, s) && s.cpu.proc != s.initproc
    ensures var p, procs := s.cpu.proc, ExitTable(c, s.table, s.cpu.proc, s.initproc).procs;
      && |procs| == |s.table.procs| && procs[p] == s.table.procs[p].(state := ZOMBIE)
      && forall x :: 0 <= x < |s.table.procs| && x != p ==>
        var was := s.table.procs[x];
        procs[x] == was.(parent := if was.parent == Some(p) then Some(s.initproc) else was.parent,
                         state := if WokenByExit(s.table.procs, x, p, s.initproc) then RUNNABLE else was.state)
  {
    hide RemoveFrom, Core;
    var p, procs := s.cpu.proc, s.table.procs;
    var woken := Wake(procs, ChanOf(procs[p].parent));
    assert HasZombieChild(woken, p) <==> LeavesZombie(procs, p) by {
      forall y | 0 <= y < |procs| ensures woken[y].parent == procs[y].parent && (woken[y].state == ZOMBIE <==> procs[y].state == ZOMBIE) { }
      if HasZombieChild(woken, p) {
        var y :| 0 <= y < |woken| && ZombieChild(woken, p, y);
        assert procs[y].parent == Some(p);
      }
      if LeavesZombie(procs, p) {
        var y :| 0 <= y < |procs| && procs[y].parent == Some(p) && procs[y].state == ZOMBIE;
        assert ZombieChild(woken, p, y);
      }
    }
    SelfParent(c, s);
  }

  /** Nobody but init can be a child of itself, and only `wait` sleeps on a slot. */
  lemma SelfParent(c: Config, s: State)
    requires Inv(c, s) && s.cpu.Running? && s.cpu.proc < |s.table.procs|
    ensures s.cpu.proc != s.initproc ==> s.table.procs[s.cpu.proc].parent.Some? && s.table.procs[s.cpu.proc].parent != Some(s.cpu.proc)
    ensures s.table.procs[s.cpu.proc].state == RUNNING
  {
    hide Core;
    if s.cpu.proc != s.initproc { assert HasLiveParent(s.table.procs, s.cpu.proc); }
  }

  // ---------- the scheduler ----------

  /** A pass of the scheduler that finds a RUNNABLE process dispatches it: it is RUNNING and awaits
      nothing, and nothing else changes. */
  lemma DispatchExact(c: Config, s: State, k: nat, i: nat)
    requires Inv(c, s) && s.cpu == Scheduling && FirstAt(s.table, k, i)
    ensures Next(c, s, Schedule).Ok?
    ensures var t, p := Next(c, s, Schedule).next, s.table.active[k].queue[i];
      OnlyProc(s.(cpu := t.cpu), t, p, s.table.procs[p].(state := RUNNING, chan := NoChan))
      && t.cpu == Running(p, k) && t.nextpid == s.nextpid
  {
    hide InvFacts, Swap, QueueFails;
    ScheduleExact(c, s);
    RunningInRange(c, s);
    assert RunnableAt(s.table, k, i);
    var (j, h) := Pick(s.table.procs, s.table.active, 0).value;
    assert RunnableAt(s.table, j, h);
  }

  /** How many processes stand on the levels before `k`. */
  function Before(ls: seq<Level>, k: nat): nat
    requires k <= |ls|
  {
    if k == 0 then 0 else Before(ls, k - 1) + |ls[k - 1].queue|
  }

  /** `Flat` lists the levels from the first on, each in queue order. */
  lemma {:induction false} FlatAt(ls: seq<Level>, k: nat, i: nat)
    requires k < |ls| && i < |ls[k].queue|
    ensures Before(ls, k) + i < |Flat(ls)| && Flat(ls)[Before(ls, k) + i] == ls[k].queue[i]
  {
    if k == 0 {
    } else {
      FlatAt(ls[1..], k - 1, i);
      BeforeTail(ls, k);
    }
  }

  lemma {:induction false} BeforeTail(ls: seq<Level>, k: nat)
    requires 0 < k <= |ls|
    ensures Before(ls, k) == |ls[0].queue| + Before(ls[1..], k - 1)
  {
    if k == 1 {
    } else {
      BeforeTail(ls, k - 1);
    }
  }

  lemma {:induction false} FlatSize(ls: seq<Level>)
    ensures |Flat(ls)| == Before(ls, |ls|)
  {
    if ls == [] {
    } else {
      FlatSize(ls[1..]);
      BeforeTail(ls, |ls|);
    }
  }

  /** `WithDefault` picks from a queue in order. */
  lemma {:induction false} WithDefaultAppend(procs: seq<Proc>, a: seq<nat>, b: seq<nat>, d: nat)
    requires Slots(a, |procs|) && Slots(b, |procs|)
    ensures Slots(a + b, |procs|) && WithDefault(procs, a + b, d) == WithDefault(procs, a, d) + WithDefault(procs, b, d)
  {
    if a == [] {
      assert a + b == b;
    } else {
      assert (a + b)[1..] == a[1..] + b;
      WithDefaultAppend(procs, a[1..], b, d);
    }
  }

  /** A pass that finds none swaps the sets: every quantum is full, the expired set is empty, every
      process of the old active set is refilled, and each active level has its old expired processes
      and then those of the old active set with that default level. */
  lemma SwapStep(c: Config, s: State)
    requires Inv(c, s) && s.cpu == Scheduling && forall k: nat, i: nat :: !RunnableAt(s.table, k, i)
    ensures Next(c, s, Schedule).Ok? && Slots(Flat(s.table.active), |s.table.procs|)
    ensures var t := Next(c, s, Schedule).next;
      && t == s.(table := t.table) && |t.table.procs| == |s.table.procs|
      && |t.table.active| == |t.table.expired| == |s.table.expired| == c.levels
      && (forall x :: 0 <= x < |s.table.procs| ==>
            var was := s.table.procs[x];
            t.table.procs[x] == if x in Flat(s.table.active) then was.(ticksLeft := c.procQuantum) else was)
      && (forall d :: 0 <= d < c.levels ==>
            && t.table.expired[d] == Level(c.levelQuantum, [])
            && t.table.active[d] ==
              Level(c.levelQuantum, s.table.expired[d].queue + WithDefault(s.table.procs, Flat(s.table.active), d)))
  {
    hide Partition, ActiveOk, ExpiredOk, Swap, QueueFails, Refill, FamilyOk;
    ScheduleExact(c, s);
    RunningInRange(c, s);
    SwapExact(c, s.table);
    RefillAt(c, s.table.procs, Flat(s.table.active));
  }
}
