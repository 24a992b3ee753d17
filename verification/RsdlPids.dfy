/**
Pids and the mark that `kill` leaves: no two processes ever share a pid, and exactly when a slot is
marked before a process is born in it, which is then born killed.
*/
module RsdlPids {
  import opened Base
  import opened Rsdl
  import opened RsdlInvariant
  import opened RsdlRuns
  import opened RsdlOrder
  import opened RsdlExact

  // ---------- pids ----------

  /** Processes have different pids, all given out already. */
  ghost predicate PidsOk(s: State) {
    && (forall x :: 0 <= x < |s.table.procs| && s.table.procs[x].state != UNUSED ==> 0 < s.table.procs[x].pid < s.nextpid)
    && (forall x, y :: 0 <= x < y < |s.table.procs| && s.table.procs[x].state != UNUSED && s.table.procs[y].state != UNUSED ==>
          s.table.procs[x].pid != s.table.procs[y].pid)
  }

  /** Nobody is born, and nobody's pid or mark changes. */
  ghost predicate Calm(a: seq<Proc>, b: seq<Proc>) {
    |a| == |b| && forall x :: 0 <= x < |a| ==>
      b[x].pid == a[x].pid && b[x].killed == a[x].killed && (b[x].state == UNUSED <==> a[x].state == UNUSED)
  }

  lemma HandedBackCalm(c: Config, t: Table, u: Table, p: nat, k: nat, i: nat)
    requires k < |t.active| && i < |t.active[k].queue| && Slots(t.active[k].queue, |t.procs|) && p < |t.procs|
    requires HandedBack(c, t, u, p, k, i)
    ensures Calm(t.procs, u.procs)
  {
    hide Lands, Joined;
  }

  lemma GaveBackCalm(c: Config, s: State, t: State, proc: Proc, i: nat)
    requires RunsAt(c, s, i) && GaveBack(c, s, t, proc, i)
    requires var was := s.table.procs[s.cpu.proc];
      proc.pid == was.pid && proc.killed == was.killed && proc.state != UNUSED && was.state != UNUSED
    ensures Calm(s.table.procs, t.table.procs) && t.nextpid == s.nextpid
  {
    hide HandedBack;
    HandedBackCalm(c, s.table.(procs := s.table.procs[s.cpu.proc := proc]), t.table, s.cpu.proc, s.cpu.level, i);
  }

  /** The steps that concern pids and marks. */
  predicate Concerns(s: State, step: Step) {
    step.ForkBegin? || step.ForkAbort? || step.Kill? || (step.Wait? && s.cpu.Running? && LeavesZombie(s.table.procs, s.cpu.proc))
  }

  lemma CalmRunning(c: Config, s: State, step: Step, i: nat)
    requires Inv(c, s) && RunsAt(c, s, i) && Next(c, s, step).Ok? && !Concerns(s, step)
    requires step.Tick? || step.Yield? || step.Sleep? || step.Wait?
    ensures Calm(s.table.procs, Next(c, s, step).next.table.procs) && Next(c, s, step).next.nextpid == s.nextpid
  {
    hide Next, GaveBack, InvFacts, WaitResult;
    RunningInRange(c, s);
    var p, t := s.table.procs[s.cpu.proc], Next(c, s, step).next;
    match step
    case Tick => CalmTick(c, s, i);
    case Yield => YieldExact(c, s, i); GaveBackCalm(c, s, t, p.(state := RUNNABLE), i);
    case Sleep(a) => SleepExact(c, s, a, i); GaveBackCalm(c, s, t, p.(state := SLEEPING, chan := Addr(a)), i);
    case Wait =>
      WaitSleeps(c, s, i);
      if t != s { GaveBackCalm(c, s, t, p.(state := SLEEPING, chan := ProcAddr(s.cpu.proc)), i); }
  }

  lemma CalmTick(c: Config, s: State, i: nat)
    requires Inv(c, s) && RunsAt(c, s, i) && Next(c, s, Tick).Ok?
    ensures Calm(s.table.procs, Next(c, s, Tick).next.table.procs) && Next(c, s, Tick).next.nextpid == s.nextpid
  {
    hide Next, GaveBack, InvFacts;
    RunningInRange(c, s);
    TickExact(c, s, i);
    var t, p, k := Next(c, s, Tick).next, s.cpu.proc, s.cpu.level;
    var proc, level := s.table.procs[p], s.table.active[k];
    var charged := s.table.(procs := s.table.procs[p := proc.(ticksLeft := proc.ticksLeft - 1)],
                            active := s.table.active[k := Level(level.ticksLeft - 1, level.queue)]);
    if t.cpu == Scheduling {
      GaveBackCalm(c, s.(table := charged), t, proc.(ticksLeft := proc.ticksLeft - 1, state := RUNNABLE), i);
    }
  }

  lemma CalmSchedule(c: Config, s: State)
    requires Inv(c, s) && s.cpu == Scheduling && Next(c, s, Schedule).Ok?
    ensures Calm(s.table.procs, Next(c, s, Schedule).next.table.procs) && Next(c, s, Schedule).next.nextpid == s.nextpid
  {
    hide Next, InvFacts, IsSwap, Flat, WithDefault;
    ScheduleExact(c, s);
    if k: nat, i: nat :| FirstAt(s.table, k, i) {
      DispatchExact(c, s, k, i);
    } else {
      SwapStep(c, s);
    }
  }

  /** Every step that does not concern them leaves pids and marks alone. */
  lemma CalmStep(c: Config, s: State, step: Step)
    requires Inv(c, s) && Next(c, s, step).Ok? && !Concerns(s, step)
    ensures Calm(s.table.procs, Next(c, s, step).next.table.procs) && Next(c, s, step).next.nextpid == s.nextpid
  {
    hide InvFacts, QueueFails, LeavesZombie, DoSchedule, DoTick, DoYield, GoToSleep, DoWait, DoExit, DoForkCommit, Lands;
    RunningInRange(c, s);
    match step
    case Schedule => CalmSchedule(c, s);
    case Wakeup(a) => WakeupExact(c, s, a);
    case ForkCommit(slot, level) => ForkCommitExact(c, s, slot, level);
    case Exit =>
      var i := RunsSomewhere(c, s);
      ExitExact(c, s, i);
      SelfParent(c, s);
    case _ =>
      if s.cpu.Running? {
        var i := RunsSomewhere(c, s);
        CalmRunning(c, s, step, i);
      } else {
        IdleTick(c, s);
      }
  }

  /** The first slot that satisfies `f`, if any does. */
  lemma {:induction false} FirstThere(procs: seq<Proc>, f: Proc -> bool, n: nat) returns (x: nat)
    requires n <= |procs|
    ensures if x < n then FirstThat(procs, f, x) else forall y :: 0 <= y < n ==> !f(procs[y])
  {
    if n == 0 {
      x := 0;
    } else {
      x := FirstThere(procs, f, n - 1);
      if x >= n - 1 { x := if f(procs[n - 1]) then n - 1 else n; }
    }
  }

  lemma NextPids(c: Config, s: State, step: Step)
    requires Inv(c, s) && PidsOk(s) && Next(c, s, step).Ok?
    ensures PidsOk(Next(c, s, step).next)
  {
    hide Next, InvFacts;
    if !Concerns(s, step) {
      CalmStep(c, s, step);
    } else {
      ConcernedPids(c, s, step);
    }
  }

  lemma ConcernedPids(c: Config, s: State, step: Step)
    requires Inv(c, s) && PidsOk(s) && Next(c, s, step).Ok? && Concerns(s, step)
    ensures PidsOk(Next(c, s, step).next)
  {
    hide InvFacts, DoForkBegin, DoWait, DoKill, QueueFails, WaitResult;
    RunningInRange(c, s);
    var procs := s.table.procs;
    match step
    case ForkBegin =>
      var x := FirstThere(procs, (p: Proc) => p.state == UNUSED, |procs|);
      if x < |procs| { ForkBeginExact(c, s, x); } else { ForkBeginNone(c, s); }
    case ForkAbort(slot) => ForkAbortExact(c, s, slot);
    case Kill(pid) =>
      var x := FirstThere(procs, (p: Proc) => p.pid == pid, |procs|);
      if x < |procs| { KillExact(c, s, pid, x); } else { KillNobody(c, s, pid); }
    case Wait =>
      var x := FirstThere(procs, (p: Proc) => p.parent == Some(s.cpu.proc) && p.state == ZOMBIE, |procs|);
      WaitReaps(c, s, x);
  }

  /** In every state of every run. */
  lemma {:induction false} RunPids(c: Config, ss: seq<State>, steps: seq<Step>, i: nat)
    requires Run(c, ss, steps) && i <= |steps|
    ensures PidsOk(ss[i])
  {
    hide Next, PidsOk;
    if i == 0 {
      BootPids(c);
    } else {
      RunPids(c, ss, steps, i - 1);
      RunInv(c, ss, steps, i - 1);
      assert Next(c, ss[i - 1], steps[i - 1]) == Ok(ss[i - 1 + 1]);
      NextPids(c, ss[i - 1], steps[i - 1]);
    }
  }

  lemma BootPids(c: Config)
    ensures PidsOk(Boot(c)) && !Marked(Boot(c).table.procs)
  {
  }

  // ---------- marks ----------

  /** Some slot without a process is marked as killed: the next process in it is born so. */
  ghost predicate Marked(procs: seq<Proc>) { exists x :: 0 <= x < |procs| && procs[x].state == UNUSED && procs[x].killed }

  /** `kill` of this pid hits a slot without a process: pid 0, or that of a fork that failed. */
  ghost predicate HitsUnborn(procs: seq<Proc>, pid: nat) {
    exists x: nat :: FirstThat(procs, (p: Proc) => p.pid == pid, x) && procs[x].state == UNUSED
  }

  /** `kill` hits a slot without a process, or a fork fails whose half-made process was killed. */
  ghost predicate Marks(s: State, step: Step) {
    match step
    case Kill(pid) => HitsUnborn(s.table.procs, pid)
    case ForkAbort(slot) => slot < |s.table.procs| && s.table.procs[slot].killed
    case _ => false
  }

  /** While no empty slot is marked, a step marks one exactly in these two cases. */
  lemma MarksExactly(c: Config, s: State, step: Step)
    requires Inv(c, s) && !Marked(s.table.procs) && Next(c, s, step).Ok?
    ensures Marked(Next(c, s, step).next.table.procs) <==> Marks(s, step)
  {
    hide InvFacts, DoForkBegin, DoWait, DoKill, QueueFails, WaitResult;
    RunningInRange(c, s);
    var procs := s.table.procs;
    if !Concerns(s, step) {
      hide Next;
      CalmStep(c, s, step);
    } else {
      match step
      case ForkBegin =>
        var x := FirstThere(procs, (p: Proc) => p.state == UNUSED, |procs|);
        if x < |procs| { ForkBeginExact(c, s, x); } else { ForkBeginNone(c, s); }
      case ForkAbort(slot) =>
        ForkAbortExact(c, s, slot);
        assert Next(c, s, step).next.table.procs[slot].state == UNUSED;
      case Kill(pid) => KillMarks(c, s, pid);
      case Wait =>
        var x := FirstThere(procs, (p: Proc) => p.parent == Some(s.cpu.proc) && p.state == ZOMBIE, |procs|);
        WaitReaps(c, s, x);
    }
  }

  lemma KillMarks(c: Config, s: State, pid: nat)
    requires Inv(c, s) && !Marked(s.table.procs) && s.cpu.Running? && Next(c, s, Kill(pid)).Ok?
    ensures Marked(Next(c, s, Kill(pid)).next.table.procs) <==> HitsUnborn(s.table.procs, pid)
  {
    hide InvFacts, Next;
    var procs := s.table.procs;
    var x := FirstThere(procs, (p: Proc) => p.pid == pid, |procs|);
    if x < |procs| {
      KillExact(c, s, pid, x);
      var t := Next(c, s, Kill(pid)).next;
      assert t.table.procs[x].killed && (t.table.procs[x].state == UNUSED <==> procs[x].state == UNUSED);
      if y: nat :| FirstThat(procs, (p: Proc) => p.pid == pid, y) && procs[y].state == UNUSED { assert y == x; }
    } else {
      KillNobody(c, s, pid);
    }
  }

  /** So in a run without such steps no process is ever born killed. */
  lemma {:induction false} RunUnmarked(c: Config, ss: seq<State>, steps: seq<Step>, i: nat)
    requires Run(c, ss, steps) && i <= |steps| && forall j :: 0 <= j < i ==> !Marks(ss[j], steps[j])
    ensures !Marked(ss[i].table.procs)
  {
    hide Next, Marked, Marks;
    if i == 0 {
      BootPids(c);
    } else {
      RunUnmarked(c, ss, steps, i - 1);
      RunInv(c, ss, steps, i - 1);
      assert Next(c, ss[i - 1], steps[i - 1]) == Ok(ss[i - 1 + 1]);
      assert !Marks(ss[i - 1], steps[i - 1]);
      MarksExactly(c, ss[i - 1], steps[i - 1]);
    }
  }

  /** A run in which one is: nobody kills pid 2, but its slot was marked by `kill(0)`. */
  lemma BornKilled(c: Config) returns (ss: seq<State>, steps: seq<Step>)
    requires c.nproc > 1
    ensures Run(c, ss, steps) && steps == [Schedule, Kill(0), ForkBegin, ForkCommit(1, c.startingLevel)]
    ensures |ss[4].table.procs| == c.nproc && var child := ss[4].table.procs[1];
      child.state == RUNNABLE && child.pid == 2 && child.parent == Some(0) && child.killed
  {
    hide Next, Lands, WaitResult, Dispatch, Inv, GoToSleep;
    var s0, s1 := Boot(c), Dispatch(Boot(c), 0, c.startingLevel);
    BootDispatch(c);
    FirstRunning(c);
    KillExact(c, s1, 0, 1);
    var s2 := Next(c, s1, Kill(0)).next;
    NextInv(c, s1, Kill(0));
    ForkBeginExact(c, s2, 1);
    var s3 := Next(c, s2, ForkBegin).next;
    NextInv(c, s2, ForkBegin);
    ForkCommitExact(c, s3, 1, c.startingLevel);
    ss := [s0, s1, s2, s3, Next(c, s3, ForkCommit(1, c.startingLevel)).next];
    steps := [Schedule, Kill(0), ForkBegin, ForkCommit(1, c.startingLevel)];
  }

  /** Init runs, and every other slot is empty. */
  lemma FirstRunning(c: Config)
    ensures var s := Dispatch(Boot(c), 0, c.startingLevel);
      && Inv(c, s) && s.cpu == Running(0, c.startingLevel) && s.nextpid == 2 && |s.table.procs| == c.nproc
      && s.table.procs[0].pid == 1 && s.table.procs[0].state == RUNNING
      && forall x :: 1 <= x < c.nproc ==> s.table.procs[x] == Proc(UNUSED, 0, None, NoChan, false, 0, 0)
  {
    hide Inv, GoToSleep;
    BootSleep(c);
  }
}
