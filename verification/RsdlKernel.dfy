/**
The scheduler as `proc.c` runs it: level queues as arrays shifted in place, the two sets as rows
of one table that trade roles, process fields updated in place.  Every method is proved to take
the step of `Rsdl` that it implements, with all panics on the way shown unreachable.
*/
module RsdlKernel {
  import opened Base
  import opened Rsdl
  import opened RsdlInvariant
  import opened RsdlRefine

  /** `struct level_queue`. */
  class LevelQueue {
    var numproc: nat
    var ticksLeft: int
    const proc: array<nat>

    ghost predicate Valid()
      reads this
    {
      numproc <= proc.Length
    }

    ghost function Contents(): (q: seq<nat>)
      requires Valid()
      reads this, proc
    {
      proc[..numproc]
    }

    ghost function View(): Level
      requires Valid()
      reads this, proc
    {
      Level(ticksLeft, Contents())
    }

    constructor (capacity: nat, quantum: nat)
      ensures Valid() && fresh(proc) && proc.Length == capacity && View() == Level(quantum, [])
    {
      numproc := 0;
      ticksLeft := quantum;
      proc := new nat[capacity];
    }

    /** `enqueue_proc`: `ok` is false where the code panics on a full level. */
    method Enqueue(p: nat) returns (ok: bool)
      requires Valid()
      modifies this, proc
      ensures Valid() && ticksLeft == old(ticksLeft)
      ensures ok <==> |old(Contents())| < proc.Length
      ensures Contents() == if ok then old(Contents()) + [p] else old(Contents())
    {
      ok := numproc < proc.Length;
      if ok {
        proc[numproc] := p;
        numproc := numproc + 1;
      }
    }

    /** The search loop of `unqueue_proc_full`. */
    method Find(p: nat) returns (i: nat)
      requires Valid()
      ensures i == IndexOf(Contents(), p)
    {
      i := 0;
      while i < numproc && proc[i] != p
        invariant i <= numproc && p !in Contents()[..i]
      {
        i := i + 1;
      }
      FirstIndex(Contents(), p, i);
    }

    /** The loop of `unqueue_proc_full` that moves the entries after `i` up by one. */
    method CloseGap(i: nat)
      requires Valid() && i < numproc
      modifies this, proc
      ensures Valid() && ticksLeft == old(ticksLeft)
      ensures Contents() == old(Contents())[..i] + old(Contents())[i + 1..]
    {
      var j := i + 1;
      while j < numproc
        invariant i + 1 <= j <= numproc == old(numproc) <= proc.Length && ticksLeft == old(ticksLeft)
        invariant forall x :: 0 <= x < i ==> proc[x] == old(proc[x])
        invariant forall x :: i <= x < j - 1 ==> proc[x] == old(proc[x + 1])
        invariant forall x :: j - 1 <= x < numproc && x > i ==> proc[x] == old(proc[x])
      {
        proc[j - 1] := proc[j];
        j := j + 1;
      }
      numproc := numproc - 1;
    }

    /** `unqueue_proc_full`: search, then close the gap.  The result is the index `p` had, or -1
        where it is not in the queue, which is a panic unless the caller only tries. */
    method Unqueue(p: nat) returns (index: int)
      requires Valid()
      modifies this, proc
      ensures Valid() && ticksLeft == old(ticksLeft)
      ensures index == if p in old(Contents()) then IndexOf(old(Contents()), p) else -1
      ensures Contents() == Without(old(Contents()), p)
    {
      if numproc == 0 {
        return -1;
      }
      var i := Find(p);
      if i == numproc {
        WithoutAbsent(Contents(), p);
        return -1;
      }
      WithoutAt(Contents(), p, i);
      CloseGap(i);
      index := i;
    }
  }

  // ---------- a set of levels ----------

  ghost function Objects(qs: seq<LevelQueue>): set<object> {
    (set k | 0 <= k < |qs| :: qs[k] as object) + (set k | 0 <= k < |qs| :: qs[k].proc as object)
  }

  /** `n` levels, each with room for `capacity` processes, none sharing memory with another. */
  ghost predicate IsSet(qs: seq<LevelQueue>, n: nat, capacity: nat) {
    && |qs| == n
    && (forall k :: 0 <= k < n ==> qs[k].proc.Length == capacity)
    && (forall j, k :: 0 <= j < n && 0 <= k < n && j != k ==> qs[j] != qs[k] && qs[j].proc != qs[k].proc)
  }

  ghost predicate ValidSet(qs: seq<LevelQueue>)
    reads Objects(qs)
  {
    forall k :: 0 <= k < |qs| ==> qs[k].Valid()
  }

  ghost function Views(qs: seq<LevelQueue>): (r: seq<Level>)
    requires ValidSet(qs)
    reads Objects(qs)
    ensures |r| == |qs|
    ensures forall k :: 0 <= k < |r| ==> r[k] == qs[k].View()
  {
    seq(|qs|, k requires 0 <= k < |qs| && ValidSet(qs) reads Objects(qs) => qs[k].View())
  }

  /** `enqueue_proc` on one level of a set, with room. */
  method EnqueueAt(qs: seq<LevelQueue>, k: nat, p: nat, ghost n: nat, ghost capacity: nat)
    requires IsSet(qs, n, capacity) && ValidSet(qs) && k < n && |Views(qs)[k].queue| < capacity
    modifies qs[k], qs[k].proc
    ensures ValidSet(qs) && Views(qs) == Append(old(Views(qs)), k, p)
  {
    var ok := qs[k].Enqueue(p);
    assert ok;
    assert forall j :: 0 <= j < n && j != k ==> qs[j].View() == old(qs[j].View());
  }

  /** `unqueue_proc_full` on one level of a set; `index` is -1 if `p` is not there. */
  method UnqueueAt(qs: seq<LevelQueue>, k: nat, p: nat, ghost n: nat, ghost capacity: nat) returns (index: int)
    requires IsSet(qs, n, capacity) && ValidSet(qs) && k < n
    modifies qs[k], qs[k].proc
    ensures ValidSet(qs)
    ensures index == if p in old(Views(qs)[k].queue) then IndexOf(old(Views(qs)[k].queue), p) else -1
    ensures Views(qs) == old(Views(qs))[k := Level(old(Views(qs)[k].ticksLeft), Without(old(Views(qs)[k].queue), p))]
  {
    index := qs[k].Unqueue(p);
    assert forall j :: 0 <= j < n && j != k ==> qs[j].View() == old(qs[j].View());
  }

  /** The loop of `next_level`: the first open level from `start` on, or -1. */
  method NextLevel(c: Config, qs: seq<LevelQueue>, start: int) returns (k: int)
    requires IsSet(qs, c.levels, c.nproc) && ValidSet(qs)
    ensures k == -1 || (0 <= start <= k < c.levels && Open(c, Views(qs)[k]))
    ensures NoneOpen(c, Views(qs), start, if k == -1 then c.levels else k)
  {
    if start < 0 {
      return -1;
    }
    k := start;
    while k < c.levels
      invariant start <= k && NoneOpen(c, Views(qs), start, k)
    {
      assert Views(qs)[k] == qs[k].View();
      if qs[k].ticksLeft > 0 && qs[k].numproc < c.nproc {
        return;
      }
      k := k + 1;
    }
    k := -1;
  }

  /** The table with `p` appended to level `k` of one of its sets. */
  function Appended(t: Table, inActive: bool, k: nat, p: nat): Table
    requires k < |t.active| && k < |t.expired|
  {
    if inActive then t.(active := Append(t.active, k, p)) else t.(expired := Append(t.expired, k, p))
  }

  /** The loop of `pinit` over one row: every level empty and with a full quantum. */
  method EmptySet(c: Config, ghost others: set<object>) returns (qs: seq<LevelQueue>)
    ensures IsSet(qs, c.levels, c.nproc) && ValidSet(qs) && fresh(Objects(qs)) && Objects(qs) !! others
    ensures Views(qs) == EmptyTable(c).active == EmptyTable(c).expired
  {
    qs := [];
    while |qs| < c.levels
      invariant |qs| <= c.levels && IsSet(qs, |qs|, c.nproc) && ValidSet(qs)
      invariant forall k :: 0 <= k < |qs| ==> fresh(qs[k]) && fresh(qs[k].proc)
      invariant forall k :: 0 <= k < |qs| ==> qs[k].View() == Level(c.levelQuantum, [])
    {
      var q := new LevelQueue(c.nproc, c.levelQuantum);
      qs := qs + [q];
    }
  }

  // ---------- the process table ----------

  /** `ptable`, with the fields of the one CPU. */
  class PTable {
    const c: Config
    const procs: array<Proc>
    const level: seq<seq<LevelQueue>>
    var active: seq<LevelQueue>
    var expired: seq<LevelQueue>
    var cpu: Cpu
    var initproc: nat
    var nextpid: nat

    /** The table over memory set up by `PInit`. */
    constructor (c: Config, procs: array<Proc>, row0: seq<LevelQueue>, row1: seq<LevelQueue>)
      requires procs.Length == c.nproc && procs !in Objects(row0) + Objects(row1)
      requires IsSet(row0, c.levels, c.nproc) && IsSet(row1, c.levels, c.nproc) && Objects(row0) !! Objects(row1)
      requires ValidSet(row0) && ValidSet(row1)
      ensures Valid() && this.c == c && this.procs == procs && active == row0 && expired == row1
      ensures cpu == Scheduling && nextpid == 1
    {
      this.c, this.procs := c, procs;
      level := [row0, row1];
      active, expired := row0, row1;
      cpu, initproc, nextpid := Scheduling, 0, 1;
    }

    ghost function Queues(): set<object>
      reads this`active, this`expired
    {
      Objects(active) + Objects(expired)
    }

    ghost predicate Valid()
      reads this`active, this`expired, Queues()
    {
      Whole(ValidFacts())
    }

    ghost predicate ValidFacts()
      reads this`active, this`expired, Queues()
    {
      && procs.Length == c.nproc && |level| == 2 && (level == [active, expired] || level == [expired, active])
      && IsSet(active, c.levels, c.nproc) && IsSet(expired, c.levels, c.nproc) && Objects(active) !! Objects(expired)
      && ValidSet(active) && ValidSet(expired)
      && this !in Queues() && procs !in Queues()
    }

    ghost function View(): Table
      requires Valid()
      reads this`active, this`expired, procs, Queues()
    {
      Table(procs[..], Views(active), Views(expired))
    }

    ghost function State(): State
      requires Valid()
      reads this, procs, Queues()
    {
      Rsdl.State(View(), cpu, initproc, nextpid)
    }

    /** One slot of the table is rewritten. */
    method SetProc(i: nat, p: Proc)
      requires Valid() && i < c.nproc
      modifies procs
      ensures Valid() && procs.Length == c.nproc && View() == WithProc(old(View()), i, p)
    {
      procs[i] := p;
    }

    /** `find_available_queue`: an open active level, else an open expired one; `ok` is false where
        the code panics for want of both. */
    method FindAvailableQueue(activeStart: int, expiredStart: int) returns (ok: bool, inActive: bool, k: nat)
      requires Valid()
      ensures ok ==> k < c.levels && Open(c, (if inActive then View().active else View().expired)[k])
      ensures ok ==> 0 <= (if inActive then activeStart else expiredStart) <= k
      ensures NoneOpen(c, View().active, activeStart, if ok && inActive then k else c.levels)
      ensures !ok || !inActive ==> NoneOpen(c, View().expired, expiredStart, if ok then k else c.levels)
    {
      ok, inActive, k := true, true, 0;
      var n := NextLevel(c, active, activeStart);
      if n == -1 {
        inActive := false;
        n := NextLevel(c, expired, expiredStart);
        if n == -1 {
          ok := false;
          return;
        }
      }
      k := n;
    }

    /** With no active queue full, `find_available_queue` finds the place `Rsdl.Place` puts `p`. */
    method FindFor(p: nat, floor: nat) returns (inActive: bool, k: nat)
      requires Valid() && p < c.nproc && procs[p].defaultLevel <= floor
      requires HasPlace(c, View(), floor, procs[p].defaultLevel)
      ensures k < c.levels && |(if inActive then View().active else View().expired)[k].queue| < c.nproc
      ensures inActive == NextWithQuantum(View().active, Max(floor, procs[p].defaultLevel)).Some?
      ensures Sized(c, View()) ==> Place(c, View(), p, floor) == Appended(View(), inActive, k, p)
    {
      hide NextWithQuantum, Append;
      var ok;
      ok, inActive, k := FindAvailableQueue(floor, procs[p].defaultLevel);
      if !ok || !inActive {
        FoundNone(c, View().active, floor);
      } else {
        FoundActive(c, View().active, floor, k);
      }
      assert ok;
    }

    /** `enqueue_proc` into the active or the expired set. */
    method Enqueue(p: nat, inActive: bool, k: nat)
      requires Valid() && k < c.levels && |(if inActive then View().active else View().expired)[k].queue| < c.nproc
      modifies Queues()
      ensures Valid()
      ensures View() == Appended(old(View()), inActive, k, p)
    {
      hide Append;
      if inActive {
        EnqueueAt(active, k, p, c.levels, c.nproc);
      } else {
        EnqueueAt(expired, k, p, c.levels, c.nproc);
      }
    }

    /** `unqueue_proc_full` from a level of the active set. */
    method Unqueue(p: nat, k: nat) returns (index: int)
      requires Valid() && k < c.levels
      modifies Queues()
      ensures Valid()
      ensures index == if p in old(View().active[k].queue) then IndexOf(old(View().active[k].queue), p) else -1
      ensures View() == old(View()).(active := old(View().active)[k :=
        Level(old(View().active[k].ticksLeft), Without(old(View().active[k].queue), p))])
    {
      index := UnqueueAt(active, k, p, c.levels, c.nproc);
    }

    /** `unqueue_proc_full` from a level of the expired set. */
    method UnqueueExpired(p: nat, k: nat) returns (index: int)
      requires Valid() && k < c.levels
      modifies Queues()
      ensures Valid()
      ensures index == if p in old(View().expired[k].queue) then IndexOf(old(View().expired[k].queue), p) else -1
      ensures View() == old(View()).(expired := old(View().expired)[k :=
        Level(old(View().expired[k].ticksLeft), Without(old(View().expired[k].queue), p))])
    {
      index := UnqueueAt(expired, k, p, c.levels, c.nproc);
    }

    /** `find_available_queue` followed by `enqueue_proc`. */
    method Put(p: nat, floor: nat)
      requires Valid() && Sized(c, View()) && p < c.nproc && procs[p].defaultLevel <= floor
      requires HasPlace(c, View(), floor, procs[p].defaultLevel)
      modifies Queues()
      ensures Valid() && View() == Place(c, old(View()), p, floor)
    {
      hide Place, Appended, HasPlace;
      var inActive, k := FindFor(p, floor);
      Enqueue(p, inActive, k);
    }

    /** The head of active level `k`, refilled and taken out. */
    method TakeHead(k: nat) returns (np: nat)
      requires Valid() && k < c.levels && View().active[k].queue != [] && View().active[k].queue[0] < c.nproc
      modifies procs, Queues()
      ensures Valid() && np == old(View().active[k].queue[0])
      ensures View() == HeadOut(c, old(View()), k)
    {
      assert View().active[k] == active[k].View();
      np := active[k].proc[0];
      SetProc(np, procs[np].(ticksLeft := c.procQuantum));
      var index := Unqueue(np, k);
      assert index != -1;
    }

    /** One round of the migration loop. */
    method MigrateHead(p: nat, k: nat, ghost t: Table, ghost i: nat)
      requires Valid() && Returning(c, t, p, k) && t.active[k].ticksLeft <= 0
      requires i < |t.active[k].queue| <= c.nproc && Migrating(c, t, View(), p, k, i)
      modifies procs, Queues()
      ensures Valid() && Migrating(c, t, View(), p, k, i + 1)
    {
      hide Migrating, HeadOut, Place, NextWithQuantum, HasPlace, Partition, ActiveOk, ExpiredOk;
      ghost var u := View();
      HeadOutSized(c, t, u, p, k, i);
      MoverLevel(c, t, p, k, i);
      MigrateRoom(c, t, u, p, k, i, t.procs[t.active[k].queue[i]].defaultLevel);
      var np := TakeHead(k);
      assert np == t.active[k].queue[i];
      if np == p {
        MigrateRunning(c, t, u, p, k, i);
      } else {
        MigrateOther(c, t, u, p, k, i);
        Put(np, k + 1);
      }
    }

    /** The level quantum is used up: all processes of level `k` migrate, the one that ran last. */
    method MigrateLevel(p: nat, k: nat)
      requires Valid() && Returning(c, View(), p, k) && View().active[k].ticksLeft <= 0
      modifies procs, Queues()
      ensures Valid() && View() == Deplete(c, old(View()), p, k)
    {
      hide HeadOut, Place, Deplete, Placed, Refill, HasPlace, Migrating, Partition, ActiveOk, ExpiredOk;
      ghost var t, i := View(), 0;
      assert active[k].View() == t.active[k];
      MigrationStarts(c, t, p, k);
      while active[k].numproc > 0
        invariant Valid() && i <= |t.active[k].queue| && Migrating(c, t, View(), p, k, i)
        decreases |t.active[k].queue| - i
      {
        assert active[k].View() == View().active[k];
        MigrationLeft(c, t, View(), p, k, i);
        MigrateHead(p, k, t, i);
        i := i + 1;
      }
      assert active[k].View() == View().active[k];
      MigrationLeft(c, t, View(), p, k, i);
      MigrationEnds(c, t, View(), p, k);
      if procs[p].state != ZOMBIE {
        Put(p, k + 1);
      }
    }

    /** A process that was taken out goes to the place found for it, refilled if that is expired. */
    method PutBack(p: nat, nk: nat)
      requires Valid() && PutReady(c, View(), p, nk)
      modifies procs, Queues()
      ensures Valid() && View() == Place(c, old(View()), p, nk)
    {
      hide NextWithQuantum, HasPlace, Place, Appended;
      var inActive, j := FindFor(p, nk);
      if !inActive {
        SetProc(p, procs[p].(ticksLeft := c.procQuantum));
        assert procs[..] == old(procs[..]);
      }
      Enqueue(p, inActive, j);
    }

    /** The process quantum, if used up, is refilled and the process is bound a level down. */
    method TopUp(p: nat, k: nat) returns (nk: nat)
      requires Valid() && p < c.nproc
      modifies procs
      ensures Valid() && nk == k + |Spent(old(View()), p)|
      ensures View() == old(View()).(procs := Refill(c, old(View().procs), Spent(old(View()), p)))
    {
      ghost var t := View();
      RefillOne(c, t.procs, p);
      nk := k;
      if procs[p].ticksLeft <= 0 {
        SetProc(p, procs[p].(ticksLeft := c.procQuantum));
        nk := k + 1;
      }
    }

    /** `unqueue_proc` and re-enqueue of the process that ran, in the table `t` once it is topped up. */
    method Reenter(p: nat, k: nat, nk: nat, ghost t: Table)
      requires Valid() && View() == t && k < c.levels && p in t.active[k].queue
      requires PutReady(c, t.(active := t.active[k := Level(t.active[k].ticksLeft, Without(t.active[k].queue, p))]), p, nk)
      modifies procs, Queues()
      ensures Valid() && PutReady(c, t.(active := t.active[k := Level(t.active[k].ticksLeft, Without(t.active[k].queue, p))]), p, nk)
      ensures View() == Place(c, t.(active := t.active[k := Level(t.active[k].ticksLeft, Without(t.active[k].queue, p))]), p, nk)
    {
      hide Place;
      var index := Unqueue(p, k);
      assert index != -1;
      PutBack(p, nk);
    }

    /** The level still has quantum: only the process that ran is put back. */
    method RequeueRunning(p: nat, k: nat)
      requires Valid() && Returning(c, View(), p, k) && View().active[k].ticksLeft > 0
      modifies procs, Queues()
      ensures Valid() && View() == Requeue(c, old(View()), p, k)
    {
      hide Place, Partition, ActiveOk, ExpiredOk, PutReadyFacts, Refill, Without, Requeue;
      ghost var t := View();
      var nk := TopUp(p, k);
      TopUpFacts(c, t, p, k);
      assert active[k].View() == t.active[k];
      if active[k].numproc > 0 && procs[p].state != ZOMBIE {
        Reenter(p, k, nk, View());
      }
    }

    /** What `scheduler` does once the process it ran has switched back to it. */
    method AfterSwitch(p: nat, k: nat)
      requires Valid() && Returning(c, View(), p, k)
      modifies procs, Queues()
      ensures Valid() && View() == HandBack(c, old(View()), p, k)
    {
      hide Deplete, Requeue, Partition, ActiveOk, ExpiredOk;
      assert active[k].View() == View().active[k];
      if active[k].ticksLeft <= 0 {
        MigrateLevel(p, k);
      } else {
        RequeueRunning(p, k);
      }
    }

    /** The scheduler is back in its loop, with no process on the CPU. */
    method ClearCpu()
      requires Valid()
      modifies this`cpu
      ensures Valid() && View() == old(View()) && cpu == Scheduling
    {
      cpu := Scheduling;
    }

    // ---------- choosing the next process ----------

    /** The scan of one queue: the first RUNNABLE process with quantum left. */
    method ScanQueue(k: nat) returns (found: bool, p: nat, ghost i: nat)
      requires Valid() && k < c.levels && Slots(View().active[k].queue, c.nproc) && ActiveOk(c, View().procs, View().active[k], k)
      ensures found ==> FirstRunnable(View().procs, View().active[k].queue) == Some(i)
      ensures found ==> i < |View().active[k].queue| && p == View().active[k].queue[i]
      ensures !found ==> FirstRunnable(View().procs, View().active[k].queue) == None
    {
      ghost var t := View();
      var q := active[k];
      assert q.View() == t.active[k];
      var n := 0;
      found, p, i := false, 0, 0;
      while n < q.numproc
        invariant n <= |t.active[k].queue|
        invariant forall j :: 0 <= j < n ==> t.procs[t.active[k].queue[j]].state != RUNNABLE
      {
        p := q.proc[n];
        assert p == t.active[k].queue[n] && p in t.active[k].queue;
        if procs[p].state == RUNNABLE && procs[p].ticksLeft > 0 {
          FirstRunnableIs(t.procs, t.active[k].queue, n);
          found, i := true, n;
          return;
        }
        n := n + 1;
      }
      FirstRunnableNone(t.procs, t.active[k].queue);
    }

    /** One round of the level loop: a level out of quantum is skipped, and under the invariant
        that skips nobody. */
    method ScanLevel(k: nat) returns (found: bool, p: nat, ghost i: nat)
      requires Valid() && k < c.levels && Slots(View().active[k].queue, c.nproc) && ActiveOk(c, View().procs, View().active[k], k)
      ensures found ==> FirstRunnable(View().procs, View().active[k].queue) == Some(i)
      ensures found ==> i < |View().active[k].queue| && p == View().active[k].queue[i]
      ensures !found ==> FirstRunnable(View().procs, View().active[k].queue) == None
    {
      assert active[k].View() == View().active[k];
      found, p, i := false, 0, 0;
      if active[k].ticksLeft > 0 {
        found, p, i := ScanQueue(k);
      }
    }

    /** The selection loops of `scheduler`. */
    method Select(ghost t: Table) returns (found: bool, p: nat, k: nat)
      requires Valid() && View() == t && LevelsOk(c, t)
      ensures Valid() && View() == t
      ensures match Pick(t.procs, t.active, 0)
              case Some((j, i)) => found && k == j && p == t.active[j].queue[i]
              case None => !found
    {
      hide Pick, ExpiredOk, ActiveOk, FirstRunnable;
      found, p, k := false, 0, 0;
      while k < c.levels
        invariant k <= c.levels && Pick(t.procs, t.active, 0) == Pick(t.procs, t.active, k)
      {
        ghost var i;
        found, p, i := ScanLevel(k);
        if found {
          PickHere(t.procs, t.active, k, i);
          return;
        }
        PickSkips(t.procs, t.active, k);
        k := k + 1;
      }
      PickEnds(t.procs, t.active);
    }

    // ---------- the set swap ----------

    /** The quantum of a level of the expired set is full again. */
    method RestoreQuantum(k: nat)
      requires Valid() && k < c.levels
      modifies Queues()
      ensures Valid()
      ensures View() == old(View()).(expired := old(View().expired)[k := Level(c.levelQuantum, old(View().expired[k].queue))])
    {
      expired[k].ticksLeft := c.levelQuantum;
      assert forall j :: 0 <= j < c.levels && j != k ==> expired[j].View() == old(expired[j].View());
    }

    /** The head of a level of the old active set, refilled and taken out. */
    method TakeOldHead(k: nat) returns (p: nat)
      requires Valid() && k < c.levels && View().expired[k].queue != [] && View().expired[k].queue[0] < c.nproc
      modifies procs, Queues()
      ensures Valid() && p == old(View().expired[k].queue[0])
      ensures View() == OldHeadOut(c, old(View()), k)
    {
      assert View().expired[k] == expired[k].View();
      p := expired[k].proc[0];
      SetProc(p, procs[p].(ticksLeft := c.procQuantum));
      var index := UnqueueExpired(p, k);
      assert index != -1;
    }

    /** One round of the re-enqueue loop. */
    method SwapOne(k: nat, ghost t: Table, ghost i: nat)
      requires Valid() && Core(c, t, []) && k < c.levels && i < |t.active[k].queue| && Slots(Moved(t.active, k, i), c.nproc)
      requires Swapping(c, t, View(), Moved(t.active, k, i), RestAt(c, t.active, k, i))
      modifies procs, Queues()
      ensures Valid() && Slots(Moved(t.active, k, i + 1), c.nproc)
      ensures Swapping(c, t, View(), Moved(t.active, k, i + 1), RestAt(c, t.active, k, i + 1))
    {
      hide SwappingFacts, OldHeadOut, Place, HasPlace, Partition, LevelsOk, RestAt, Moved;
      ghost var u := View();
      SwapHead(c, t, u, k, i);
      SwapStep(c, t, u, k, i);
      var p := TakeOldHead(k);
      Put(p, procs[p].defaultLevel);
    }

    /** All processes of one level of the old active set go back to their default levels. */
    method SwapLevel(k: nat, ghost t: Table)
      requires Valid() && Core(c, t, []) && k < c.levels && Slots(Flat(t.active[..k]), c.nproc)
      requires Swapping(c, t, View(), Flat(t.active[..k]), RestBefore(c, t.active, k))
      modifies procs, Queues()
      ensures Valid() && Slots(Flat(t.active[..k + 1]), c.nproc)
      ensures Swapping(c, t, View(), Flat(t.active[..k + 1]), RestBefore(c, t.active, k + 1))
    {
      hide Place, Partition, LevelsOk, Moved, Reentered, Refill;
      ghost var i := 0;
      MovedLevel(t.active, k);
      RestSteps(c, t.active, k);
      RestoreQuantum(k);
      assert expired[k].View() == View().expired[k];
      while expired[k].numproc > 0
        invariant Valid() && i <= |t.active[k].queue| && Slots(Moved(t.active, k, i), c.nproc)
        invariant Swapping(c, t, View(), Moved(t.active, k, i), RestAt(c, t.active, k, i))
        decreases |t.active[k].queue| - i
      {
        assert expired[k].View() == View().expired[k];
        SwapOne(k, t, i);
        i := i + 1;
      }
      assert expired[k].View() == View().expired[k];
    }

    /** The sets trade places and the old active set is drained into the new one. */
    method SwapSets()
      requires Valid() && Core(c, View(), [])
      modifies this`active, this`expired, procs, Queues()
      ensures Valid() && View() == Swap(c, old(View())) && Queues() == old(Queues())
    {
      hide Partition, LevelsOk, Reentered, Swap;
      ghost var t := View();
      SwapBegins(c, t);
      active, expired := expired, active;
      assert View() == Table(t.procs, t.expired, t.active);
      assert t.active[..0] == [];
      RestSteps(c, t.active, 0);
      var k := 0;
      while k < c.levels
        invariant Valid() && k <= c.levels && Slots(Flat(t.active[..k]), c.nproc) && Queues() == old(Queues())
        invariant Swapping(c, t, View(), Flat(t.active[..k]), RestBefore(c, t.active, k))
      {
        SwapLevel(k, t);
        k := k + 1;
      }
      RestSteps(c, t.active, 0);
      SwapEnds(c, t, View());
    }
  }

  method EmptyProcs(c: Config, ghost others: set<object>) returns (procs: array<Proc>)
    ensures fresh(procs) && procs !in others && procs[..] == EmptyTable(c).procs && procs.Length == c.nproc
  {
    procs := new Proc[c.nproc](i => Proc(UNUSED, 0, None, NoChan, false, 0, 0));
  }

  /** `pinit`: no process, and all queues of both sets empty. */
  method PInit(c: Config) returns (pt: PTable)
    ensures pt.Valid() && pt.c == c && fresh(pt) && fresh(pt.procs) && fresh(pt.Queues())
    ensures pt.View() == EmptyTable(c) && pt.cpu == Scheduling && pt.nextpid == 1
  {
    hide EmptyTable, Objects, IsSet;
    var row0 := EmptySet(c, {});
    var row1 := EmptySet(c, Objects(row0));
    var procs := EmptyProcs(c, Objects(row0) + Objects(row1));
    pt := new PTable(c, procs, row0, row1);
  }

  lemma FirstIndex(q: seq<nat>, p: nat, i: nat)
    requires i <= |q| && (i < |q| ==> q[i] == p) && p !in q[..i]
    ensures IndexOf(q, p) == i
  {
    if i == 0 {
    } else {
      assert q[0] in q[..i];
      assert q[1..][..i - 1] == q[..i][1..];
      FirstIndex(q[1..], p, i - 1);
    }
  }
}
