/**
The process calls of `proc.c` and the timer tick of `trap.c`, run on the process table of
`RsdlKernel`: each method takes exactly its step of `Rsdl.Next`.
*/
module RsdlCalls {
  import opened Base
  import opened Rsdl
  import opened RsdlInvariant
  import opened RsdlRefine
  import opened RsdlKernel

  /** `wakeup1`: every sleeper on the channel becomes RUNNABLE. */
  method Wakeup1(procs: array<Proc>, chan: Chan)
    modifies procs
    ensures procs[..] == Wake(old(procs[..]), chan)
  {
    var i := 0;
    while i < procs.Length
      invariant i <= procs.Length
      invariant forall j :: 0 <= j < i ==> procs[j] == Wake(old(procs[..]), chan)[j]
      invariant forall j :: i <= j < procs.Length ==> procs[j] == old(procs[j])
    {
      if procs[i].state == SLEEPING && procs[i].chan == chan {
        procs[i] := procs[i].(state := RUNNABLE);
      }
      i := i + 1;
    }
  }

  /** The first `n` processes adopted, and the rest not yet. */
  ghost function AdoptUpTo(procs: seq<Proc>, p: nat, init: nat, n: nat): (r: seq<Proc>)
    ensures |r| == |procs|
    ensures forall i :: 0 <= i < |r| ==>
      r[i] == if i < n && procs[i].parent == Some(p) then procs[i].(parent := Some(init)) else procs[i]
  {
    seq(|procs|, i requires 0 <= i < |procs| =>
      if i < n && procs[i].parent == Some(p) then procs[i].(parent := Some(init)) else procs[i])
  }

  ghost predicate ZombieChildUpTo(procs: seq<Proc>, p: nat, n: nat) {
    exists i :: 0 <= i < n && ZombieChild(procs, p, i)
  }

  ghost function WakeIf(b: bool, procs: seq<Proc>, chan: Chan): seq<Proc> { if b then Wake(procs, chan) else procs }

  /** The loop of `exit` that hands the children over to init, waking it for each zombie. */
  method PassChildren(procs: array<Proc>, p: nat, init: nat)
    modifies procs
    ensures procs[..] == WakeIf(HasZombieChild(old(procs[..]), p), Adopt(old(procs[..]), p, init), ProcAddr(init))
  {
    ghost var before := procs[..];
    var i := 0;
    while i < procs.Length
      invariant i <= procs.Length == |before|
      invariant procs[..] == WakeIf(ZombieChildUpTo(before, p, i), AdoptUpTo(before, p, init, i), ProcAddr(init))
    {
      ZombieStep(before, p, i);
      if procs[i].parent == Some(p) {
        procs[i] := procs[i].(parent := Some(init));
        if procs[i].state == ZOMBIE {
          Wakeup1(procs, ProcAddr(init));
        }
      }
      i := i + 1;
    }
    assert AdoptUpTo(before, p, init, i) == Adopt(before, p, init);
  }

  lemma ZombieStep(procs: seq<Proc>, p: nat, n: nat)
    requires n < |procs|
    ensures ZombieChildUpTo(procs, p, n + 1) <==> ZombieChildUpTo(procs, p, n) || ZombieChild(procs, p, n)
  {
    if ZombieChildUpTo(procs, p, n) {
      var i :| 0 <= i < n && ZombieChild(procs, p, i);
      assert ZombieChild(procs, p, i);
    }
    if ZombieChild(procs, p, n) { assert 0 <= n < n + 1; }
  }

  // ---------- leaving all queues ----------

  /** Some level holds `p`. */
  ghost predicate Queued(ls: seq<Level>, p: nat) { exists k :: 0 <= k < |ls| && p in ls[k].queue }

  /** The inner loop of `remove_proc_from_levels`: try each level of one row until `p` is found. */
  method RemoveFromRow(qs: seq<LevelQueue>, p: nat, n: nat, ghost capacity: nat) returns (found: bool)
    requires IsSet(qs, n, capacity) && ValidSet(qs) && SlotsIn(Views(qs), capacity) && Count(Views(qs), p) <= 1
    modifies Objects(qs)
    ensures ValidSet(qs) && Views(qs) == RemoveFrom(old(Views(qs)), p, capacity)
    ensures found <==> Queued(old(Views(qs)), p)
  {
    ghost var before := Views(qs);
    found := false;
    var k := 0;
    while k < n
      invariant k <= n && ValidSet(qs) && Views(qs) == before
      invariant forall j :: 0 <= j < k ==> p !in before[j].queue
    {
      var index := UnqueueAt(qs, k, p, n, capacity);
      if index != -1 {
        found := true;
        RemoveOnly(before, k, p, capacity);
        return;
      }
      WithoutAbsent(before[k].queue, p);
      k := k + 1;
    }
    RemoveNone(before, p, capacity);
  }

  lemma RemoveOnly(ls: seq<Level>, k: nat, p: nat, n: nat)
    requires SlotsIn(ls, n) && k < |ls| && p in ls[k].queue && Count(ls, p) <= 1
    ensures RemoveFrom(ls, p, n) == ls[k := Level(ls[k].ticksLeft, Without(ls[k].queue, p))]
  {
    forall j | 0 <= j < |ls| && j != k ensures Without(ls[j].queue, p) == ls[j].queue {
      TwoLevels(ls, j, k, p);
      WithoutAbsent(ls[j].queue, p);
    }
  }

  lemma RemoveNone(ls: seq<Level>, p: nat, n: nat)
    requires SlotsIn(ls, n) && forall j :: 0 <= j < |ls| ==> p !in ls[j].queue
    ensures RemoveFrom(ls, p, n) == ls
  {
    forall j | 0 <= j < |ls| ensures Without(ls[j].queue, p) == ls[j].queue { WithoutAbsent(ls[j].queue, p); }
  }

  ghost function Side(t: Table, inActive: bool): seq<Level> { if inActive then t.active else t.expired }

  ghost function SideRemoved(t: Table, inActive: bool, p: nat, n: nat): Table
    requires SlotsIn(Side(t, inActive), n)
  {
    if inActive then t.(active := RemoveFrom(t.active, p, n)) else t.(expired := RemoveFrom(t.expired, p, n))
  }

  method RemoveFromSide(pt: PTable, p: nat, inActive: bool) returns (found: bool)
    requires pt.Valid() && SlotsIn(Side(pt.View(), inActive), pt.c.nproc) && Count(Side(pt.View(), inActive), p) <= 1
    modifies pt.Queues()
    ensures pt.Valid() && pt.View() == SideRemoved(old(pt.View()), inActive, p, pt.c.nproc)
    ensures found <==> Queued(Side(old(pt.View()), inActive), p)
  {
    hide RemoveFrom, Count;
    if inActive {
      found := RemoveFromRow(pt.active, p, pt.c.levels, pt.c.nproc);
      assert Views(pt.expired) == old(Views(pt.expired));
    } else {
      found := RemoveFromRow(pt.expired, p, pt.c.levels, pt.c.nproc);
      assert Views(pt.active) == old(Views(pt.active));
    }
  }

  /** `remove_proc_from_levels`: row 0, then row 1, until `p` is found. */
  method RemoveProcFromLevels(pt: PTable, p: nat) returns (found: bool)
    requires pt.Valid() && SlotsIn(pt.View().active, pt.c.nproc) && SlotsIn(pt.View().expired, pt.c.nproc)
    requires Count(pt.View().active, p) + Count(pt.View().expired, p) <= 1
    modifies pt.Queues()
    ensures pt.Valid()
    ensures pt.View() == old(pt.View()).(active := RemoveFrom(old(pt.View().active), p, pt.c.nproc),
                                        expired := RemoveFrom(old(pt.View().expired), p, pt.c.nproc))
    ensures found <==> Queued(old(pt.View().active), p) || Queued(old(pt.View().expired), p)
  {
    hide RemoveFrom, Count;
    ghost var t := pt.View();
    var row0Active := pt.level[0] == pt.active;
    found := RemoveFromSide(pt, p, row0Active);
    if !found {
      found := RemoveFromSide(pt, p, !row0Active);
    } else {
      ghost var k :| 0 <= k < |Side(t, row0Active)| && p in Side(t, row0Active)[k].queue;
      OtherRow(Side(t, row0Active), Side(t, !row0Active), k, p, pt.c.nproc);
    }
  }

  lemma OtherRow(a: seq<Level>, b: seq<Level>, k: nat, p: nat, n: nat)
    requires SlotsIn(b, n) && k < |a| && p in a[k].queue && Count(a, p) + Count(b, p) <= 1
    ensures RemoveFrom(b, p, n) == b
  {
    MemberCount(a[k].queue, p);
    CountAtLeast(a, k, p);
    forall j | 0 <= j < |b| ensures p !in b[j].queue {
      MemberCount(b[j].queue, p);
      CountAtLeast(b, j, p);
    }
    RemoveNone(b, p, n);
  }

  // ---------- the steps ----------

  /** `sched`: switch to the scheduler, which deals with the process that ran and resumes its loop. */
  method Sched(pt: PTable)
    requires pt.Valid() && pt.cpu.Running? && Returning(pt.c, pt.View(), pt.cpu.proc, pt.cpu.level)
    modifies pt`cpu, pt.procs, pt.Queues()
    ensures pt.Valid()
    ensures pt.State() == old(pt.State()).(
      table := HandBack(pt.c, old(pt.View()), old(pt.cpu.proc), old(pt.cpu.level)), cpu := Scheduling)
  {
    hide HandBack, Partition, ActiveOk, ExpiredOk;
    pt.AfterSwitch(pt.cpu.proc, pt.cpu.level);
    pt.ClearCpu();
  }

  /** `yield`: RUNNABLE again, and over to the scheduler. */
  method Yield(pt: PTable)
    requires pt.Valid() && Inv(pt.c, pt.State()) && pt.cpu.Running?
    modifies pt`cpu, pt.procs, pt.Queues()
    ensures pt.Valid() && CpuInRange(pt.c, old(pt.State())) && pt.State() == DoYield(pt.c, old(pt.State()))
  {
    SwitchOut(pt, pt.procs[pt.cpu.proc].(state := RUNNABLE));
  }

  /** The running process leaves the CPU in state `p`, and the scheduler takes over. */
  method SwitchOut(pt: PTable, p: Proc)
    requires pt.Valid() && Inv(pt.c, pt.State()) && pt.cpu.Running?
    requires p.state == SLEEPING || p.state == RUNNABLE
    requires p.(state := RUNNING, chan := NoChan) == pt.procs[pt.cpu.proc].(chan := NoChan)
    modifies pt`cpu, pt.procs, pt.Queues()
    ensures pt.Valid() && CpuInRange(pt.c, old(pt.State())) && pt.State() == Leave(pt.c, old(pt.State()), p)
  {
    hide HandBack, Core, FamilyOk, ReturningFacts, WellFormed;
    ghost var s := pt.State();
    LeaveReturns(pt.c, s, p);
    pt.SetProc(pt.cpu.proc, p);
    Sched(pt);
  }

  lemma LeaveReturns(c: Config, s: State, p: Proc)
    requires Inv(c, s) && s.cpu.Running?
    requires p.state == SLEEPING || p.state == RUNNABLE
    requires p.(state := RUNNING, chan := NoChan) == s.table.procs[s.cpu.proc].(chan := NoChan)
    ensures CpuInRange(c, s) && WellFormed(c, s.table) && Returning(c, WithProc(s.table, s.cpu.proc, p), s.cpu.proc, s.cpu.level)
  {
    RunningInRange(c, s);
    assert ActiveOk(c, s.table.procs, s.table.active[s.cpu.level], s.cpu.level);
    RunningReturns(c, s, WithProc(s.table, s.cpu.proc, p));
  }

  /** `sleep` on a channel that is not a process. */
  method Sleep(pt: PTable, address: nat)
    requires pt.Valid() && Inv(pt.c, pt.State()) && pt.cpu.Running?
    modifies pt`cpu, pt.procs, pt.Queues()
    ensures pt.Valid() && CpuInRange(pt.c, old(pt.State())) && pt.State() == GoToSleep(pt.c, old(pt.State()), Addr(address))
  {
    SwitchOut(pt, pt.procs[pt.cpu.proc].(state := SLEEPING, chan := Addr(address)));
  }

  /** The timer interrupt of `trap`. */
  method Tick(pt: PTable)
    requires pt.Valid() && Inv(pt.c, pt.State()) && pt.cpu.Running?
    modifies pt`cpu, pt.procs, pt.Queues()
    ensures pt.Valid() && CpuInRange(pt.c, old(pt.State())) && pt.State() == DoTick(pt.c, old(pt.State()))
  {
    hide HandBack, Core, FamilyOk, ReturningFacts, WellFormed, Charge;
    ghost var s := pt.State();
    var p, k := pt.cpu.proc, pt.cpu.level;
    TickFacts(pt.c, s);
    ChargeBoth(pt, p, k);
    assert pt.active[k].View() == pt.View().active[k];
    if pt.procs[p].ticksLeft <= 0 || pt.active[k].ticksLeft <= 0 {
      pt.SetProc(p, pt.procs[p].(state := RUNNABLE));
      Sched(pt);
    }
  }

  method ChargeBoth(pt: PTable, p: nat, k: nat)
    requires pt.Valid() && p < pt.c.nproc && k < pt.c.levels
    modifies pt.procs, pt.Queues()
    ensures pt.Valid() && pt.View() == Charge(old(pt.View()), p, k)
  {
    hide IsSet, ValidSet;
    ghost var t := pt.View();
    pt.SetProc(p, pt.procs[p].(ticksLeft := pt.procs[p].ticksLeft - 1));
    assert pt.View() == WithProc(t, p, t.procs[p].(ticksLeft := t.procs[p].ticksLeft - 1));
    ChargeLevel(pt, k);
  }

  method ChargeLevel(pt: PTable, k: nat)
    requires pt.Valid() && k < pt.c.levels
    modifies pt.Queues()
    ensures pt.Valid()
    ensures var l := old(pt.View().active[k]);
      pt.View() == old(pt.View()).(active := old(pt.View().active)[k := l.(ticksLeft := l.ticksLeft - 1)])
  {
    assert pt.active[k].View() == pt.View().active[k];
    pt.active[k].ticksLeft := pt.active[k].ticksLeft - 1;
    assert forall j :: 0 <= j < pt.c.levels && j != k ==> pt.active[j].View() == old(pt.active[j].View());
  }

  lemma TickFacts(c: Config, s: State)
    requires Inv(c, s) && s.cpu.Running?
    ensures CpuInRange(c, s) && WellFormed(c, s.table) && WellFormed(c, Charge(s.table, s.cpu.proc, s.cpu.level))
    ensures Returning(c, Ticked(s), s.cpu.proc, s.cpu.level)
  {
    RunningInRange(c, s);
    TickedReturns(c, s);
    ChargeWellFormed(c, s.table, s.cpu.proc, s.cpu.level);
  }

  /** `exit` of a process other than init. */
  method Exit(pt: PTable)
    requires pt.Valid() && Inv(pt.c, pt.State()) && pt.cpu.Running? && pt.cpu.proc != pt.initproc
    modifies pt`cpu, pt.procs, pt.Queues()
    ensures pt.Valid() && CpuInRange(pt.c, old(pt.State())) && pt.State() == DoExit(pt.c, old(pt.State()))
  {
    hide HandBack, FamilyOk, LevelsOkFacts, ReturningFacts, RemoveFrom, ExitFamily, Count;
    ghost var s := pt.State();
    var p := pt.cpu.proc;
    ExitFacts(pt.c, s);
    ExitProcs(pt, p);
    var found := RemoveProcFromLevels(pt, p);
    pt.SetProc(p, pt.procs[p].(state := ZOMBIE));
    Sched(pt);
  }

  /** The wakeups and adoptions of `exit`. */
  method ExitProcs(pt: PTable, p: nat)
    requires pt.Valid() && p < pt.c.nproc
    modifies pt.procs
    ensures pt.Valid() && pt.View() == old(pt.View()).(procs := ExitFamily(old(pt.View().procs), p, pt.initproc))
  {
    Wakeup1(pt.procs, ChanOf(pt.procs[p].parent));
    PassChildren(pt.procs, p, pt.initproc);
  }

  lemma ExitFacts(c: Config, s: State)
    requires Inv(c, s) && s.cpu.Running? && s.cpu.proc != s.initproc
    ensures CpuInRange(c, s) && WellFormed(c, s.table)
    ensures Count(s.table.active, s.cpu.proc) + Count(s.table.expired, s.cpu.proc) <= 1
    ensures Returning(c, ExitTable(c, s.table, s.cpu.proc, s.initproc), s.cpu.proc, s.cpu.level)
  {
    RunningInRange(c, s);
    ExitReturns(c, s);
    assert Count(s.table.active, s.cpu.proc) + Count(s.table.expired, s.cpu.proc) + multiset([])[s.cpu.proc] <= 1;
  }

  // ---------- scans of the table ----------

  lemma FirstSlotIs(procs: seq<Proc>, f: Proc -> bool, i: nat, j: nat)
    requires i <= j < |procs| && f(procs[j]) && forall n :: i <= n < j ==> !f(procs[n])
    ensures FirstSlot(procs, f, i) == Some(j)
  {
  }

  lemma FirstSlotNone(procs: seq<Proc>, f: Proc -> bool, i: nat)
    requires forall n :: i <= n < |procs| ==> !f(procs[n])
    ensures FirstSlot(procs, f, i) == None
  {
  }

  /** `allocproc`: the first UNUSED slot becomes an EMBRYO. */
  method AllocProc(pt: PTable) returns (ok: bool, slot: nat)
    requires pt.Valid()
    modifies pt`nextpid, pt.procs
    ensures pt.Valid() && pt.State() == DoForkBegin(pt.c, old(pt.State()))
    ensures ok <==> exists i :: 0 <= i < pt.c.nproc && old(pt.View().procs)[i].state == UNUSED
    ensures ok ==> slot < pt.c.nproc && pt.View().procs[slot].state == EMBRYO && pt.View().procs[slot].pid == old(pt.nextpid)
  {
    ghost var procs := pt.procs[..];
    ghost var f := (p: Proc) => p.state == UNUSED;
    slot, ok := 0, false;
    while slot < pt.procs.Length
      invariant slot <= |procs| && forall j :: 0 <= j < slot ==> procs[j].state != UNUSED
    {
      if pt.procs[slot].state == UNUSED {
        FirstSlotIs(procs, f, 0, slot);
        ok := true;
        pt.procs[slot] := pt.procs[slot].(state := EMBRYO, pid := pt.nextpid, ticksLeft := pt.c.procQuantum,
                                          defaultLevel := pt.c.startingLevel);
        pt.nextpid := pt.nextpid + 1;
        return;
      }
      slot := slot + 1;
    }
    FirstSlotNone(procs, f, 0);
  }

  /** `userinit`: the first slot becomes init, RUNNABLE at its starting level. */
  method UserInit(pt: PTable)
    requires pt.Valid() && pt.View() == EmptyTable(pt.c) && pt.cpu == Scheduling && pt.nextpid == 1
    modifies pt`initproc, pt`nextpid, pt.procs, pt.Queues()
    ensures pt.Valid() && pt.State() == Boot(pt.c)
  {
    hide Place, HasPlace, Boot;
    ghost var t := pt.View();
    FirstSlotIs(t.procs, (p: Proc) => p.state == UNUSED, 0, 0);
    assert t.procs[0].state == UNUSED;
    var ok, p := AllocProc(pt);
    assert p == 0;
    pt.initproc := p;
    pt.SetProc(p, pt.procs[p].(state := RUNNABLE));
    BootIs(pt.c, pt.View());
    pt.Put(p, pt.procs[p].defaultLevel);
    BootRest(pt.c);
  }

  lemma BootRest(c: Config)
    ensures Boot(c) == Rsdl.State(Boot(c).table, Scheduling, 0, 2)
  {
  }

  /** `kill`: mark the first process with the pid and wake it if it sleeps. */
  method Kill(pt: PTable, pid: nat) returns (ok: bool)
    requires pt.Valid()
    modifies pt.procs
    ensures pt.Valid() && pt.State() == DoKill(old(pt.State()), pid)
    ensures ok <==> exists i :: 0 <= i < pt.c.nproc && old(pt.View().procs)[i].pid == pid
  {
    ghost var procs := pt.procs[..];
    ghost var f := (p: Proc) => p.pid == pid;
    var i := 0;
    while i < pt.procs.Length
      invariant i <= |procs| && forall j :: 0 <= j < i ==> procs[j].pid != pid
    {
      if pt.procs[i].pid == pid {
        FirstSlotIs(procs, f, 0, i);
        pt.procs[i] := pt.procs[i].(killed := true);
        if pt.procs[i].state == SLEEPING {
          pt.procs[i] := pt.procs[i].(state := RUNNABLE);
        }
        return true;
      }
      i := i + 1;
    }
    FirstSlotNone(procs, f, 0);
    return false;
  }

  /** What the scan of `wait` reports. */
  ghost predicate Scanned(procs: seq<Proc>, p: nat, zombie: bool, slot: nat, havekids: bool) {
    match ZombieOf(procs, p)
    case Some(i) => zombie && slot == i
    case None => !zombie && havekids == HasChild(procs, p)
  }

  /** The scan of `wait`: the first zombie child, and whether there is any child. */
  method ScanChildren(pt: PTable, p: nat, ghost s: State) returns (zombie: bool, slot: nat, havekids: bool)
    requires pt.Valid() && pt.State() == s
    ensures pt.Valid() && pt.State() == s && Scanned(s.table.procs, p, zombie, slot, havekids)
    ensures zombie ==> slot < pt.c.nproc
  {
    ghost var procs := pt.procs[..];
    ghost var f := (x: Proc) => x.parent == Some(p) && x.state == ZOMBIE;
    zombie, slot, havekids := false, 0, false;
    while slot < pt.procs.Length
      invariant slot <= |procs| && forall j :: 0 <= j < slot ==> !f(procs[j])
      invariant havekids <==> exists j :: 0 <= j < slot && procs[j].parent == Some(p)
    {
      if pt.procs[slot].parent == Some(p) {
        havekids := true;
        if pt.procs[slot].state == ZOMBIE {
          FirstSlotIs(procs, f, 0, slot);
          zombie := true;
          return;
        }
      }
      slot := slot + 1;
    }
    FirstSlotNone(procs, f, 0);
  }

  /**
    * One round of `wait`: reap a zombie child and return its pid, give up with -1, or sleep until a
    * child exits, which returns nothing yet.
    */
  method Wait(pt: PTable) returns (pid: Option<int>)
    requires pt.Valid() && Inv(pt.c, pt.State()) && pt.cpu.Running?
    modifies pt`cpu, pt.procs, pt.Queues()
    ensures pt.Valid() && CpuInRange(pt.c, old(pt.State())) && pt.State() == DoWait(pt.c, old(pt.State()))
    ensures pid == WaitResult(old(pt.View().procs), old(pt.cpu.proc))
  {
    hide InvFacts, DoWait, WaitResult, Scanned, GoToSleep, WithProc, Reaped, IsSet, ValidSet, Objects;
    ghost var s := pt.State();
    RunningInRange(pt.c, s);
    var zombie, slot, havekids := ScanChildren(pt, pt.cpu.proc, s);
    var killed := IsKilled(pt, s);
    WaitIs(pt.c, s, zombie, slot, havekids);
    if zombie {
      var reaped := Reap(pt, slot);
      pid := Some(reaped);
    } else if !havekids || killed {
      pid := Some(-1);
    } else {
      WaitForChild(pt);
      pid := None;
    }
  }

  /** The three ways a round of `wait` ends, from what the scan found. */
  lemma WaitIs(c: Config, s: State, zombie: bool, slot: nat, havekids: bool)
    requires WellFormed(c, s.table) && CpuInRange(c, s) && s.cpu.Running?
    requires Scanned(s.table.procs, s.cpu.proc, zombie, slot, havekids)
    ensures zombie ==> DoWait(c, s) == s.(table := WithProc(s.table, slot, Reaped(s.table.procs[slot])))
    ensures zombie ==> WaitResult(s.table.procs, s.cpu.proc) == Some(s.table.procs[slot].pid as int)
    ensures !zombie && (!havekids || s.table.procs[s.cpu.proc].killed) ==>
      DoWait(c, s) == s && WaitResult(s.table.procs, s.cpu.proc) == Some(-1)
    ensures !zombie && havekids && !s.table.procs[s.cpu.proc].killed ==>
      DoWait(c, s) == GoToSleep(c, s, ProcAddr(s.cpu.proc)) && WaitResult(s.table.procs, s.cpu.proc) == None
  {
  }

  method IsKilled(pt: PTable, ghost s: State) returns (killed: bool)
    requires pt.Valid() && pt.State() == s && CpuInRange(pt.c, s) && s.cpu.Running?
    ensures pt.Valid() && pt.State() == s && killed == s.table.procs[s.cpu.proc].killed
  {
    killed := pt.procs[pt.cpu.proc].killed;
  }

  /** The zombie's slot becomes free. */
  method Reap(pt: PTable, slot: nat) returns (pid: int)
    requires pt.Valid() && slot < pt.c.nproc
    modifies pt.procs
    ensures pt.Valid() && pid == old(pt.View().procs)[slot].pid
    ensures pt.State() == old(pt.State()).(table := WithProc(old(pt.View()), slot, Reaped(old(pt.View().procs)[slot])))
  {
    pid := pt.procs[slot].pid;
    pt.SetProc(slot, Reaped(pt.procs[slot]));
  }

  /** `sleep` on the process's own slot, the channel that an exiting child wakes. */
  method WaitForChild(pt: PTable)
    requires pt.Valid() && Inv(pt.c, pt.State()) && pt.cpu.Running?
    modifies pt`cpu, pt.procs, pt.Queues()
    ensures pt.Valid() && CpuInRange(pt.c, old(pt.State()))
    ensures pt.State() == GoToSleep(pt.c, old(pt.State()), ProcAddr(old(pt.cpu.proc)))
  {
    SwitchOut(pt, pt.procs[pt.cpu.proc].(state := SLEEPING, chan := ProcAddr(pt.cpu.proc)));
  }

  /** The end of `priofork`: the EMBRYO becomes a RUNNABLE child and is enqueued. */
  method ForkCommit(pt: PTable, slot: nat, level: nat)
    requires pt.Valid() && Inv(pt.c, pt.State()) && pt.cpu.Running?
    requires slot < pt.c.nproc && pt.procs[slot].state == EMBRYO && level < pt.c.levels
    modifies pt.procs, pt.Queues()
    ensures pt.Valid() && WellFormed(pt.c, old(pt.State()).table)
    ensures pt.State() == DoForkCommit(pt.c, old(pt.State()), slot, level)
  {
    hide InvFacts, Place, HasPlace;
    ghost var s := pt.State();
    var child := pt.procs[slot].(parent := Some(pt.cpu.proc), defaultLevel := level, state := RUNNABLE);
    ForkFacts(pt.c, s, slot, level, child);
    pt.SetProc(slot, child);
    pt.Put(slot, level);
  }

  lemma ForkFacts(c: Config, s: State, slot: nat, level: nat, child: Proc)
    requires Inv(c, s) && slot < c.nproc && s.table.procs[slot].state == EMBRYO && level < c.levels
    requires child.state == RUNNABLE && child.defaultLevel == level
    ensures WellFormed(c, s.table) && Sized(c, WithProc(s.table, slot, child))
    ensures HasPlace(c, WithProc(s.table, slot, child), level, level)
  {
    NewProcCore(c, s.table, slot, child);
    PlaceFor(c, WithProc(s.table, slot, child), [slot], level, level);
  }

  /** One pass of the `scheduler` loop, up to the switch to the chosen process. */
  method Schedule(pt: PTable)
    requires pt.Valid() && Inv(pt.c, pt.State()) && pt.cpu == Scheduling
    modifies pt`active, pt`expired, pt`cpu, pt.procs, pt.Queues()
    ensures pt.Valid() && WellFormed(pt.c, old(pt.State()).table) && pt.State() == DoSchedule(pt.c, old(pt.State()))
  {
    hide Swap, FamilyOk, Partition, ActiveOk, ExpiredOk, Pick, IsSet, ValidSet, Dispatch;
    ghost var s := pt.State();
    var found, p, k := pt.Select(s.table);
    assert pt.State() == s;
    if found {
      SwitchTo(pt, p, k);
    } else {
      pt.SwapSets();
    }
  }

  method SwitchTo(pt: PTable, p: nat, k: nat)
    requires pt.Valid() && p < pt.c.nproc
    modifies pt`cpu, pt.procs
    ensures pt.Valid() && pt.State() == Dispatch(old(pt.State()), p, k)
  {
    hide IsSet, ValidSet;
    pt.SetProc(p, pt.procs[p].(state := RUNNING, chan := NoChan));
    SetCpu(pt, p, k);
  }

  method SetCpu(pt: PTable, p: nat, k: nat)
    requires pt.Valid()
    modifies pt`cpu
    ensures pt.Valid() && pt.View() == old(pt.View()) && pt.cpu == Running(p, k)
  {
    pt.cpu := Running(p, k);
  }
}
