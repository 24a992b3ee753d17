/**
`log.c` as it updates the disk, the cache and its own fields. The object carries, as ghost state,
the run of the journal that its calls have made so far: every store to the disk is one step of
it, so that what holds of all runs holds of the disk between any two block writes.
*/
module JournalKernel {
  import opened Base
  import opened Journal
  import opened JournalProofs
  import opened JournalRuns

  predicate Cleared(p: Phase) { p.Clearing? || p.Resetting? }

  /** A block write by the committing process, which moves on to phase `to`. */
  function Wrote(s: State, b: nat, data: Block, to: Phase): State
    requires b < |s.disk|
  {
    Put(s, b, data).(phase := to, lh := if Cleared(to) then [] else s.lh)
  }

  /** The run went on from `steps0` by cache fills and block writes only. */
  ghost predicate Quietly(steps0: seq<Step>, trail0: seq<State>, steps: seq<Step>, trail: seq<State>) {
    && |trail0| == |steps0| + 1 && steps0 <= steps && trail0 <= trail
    && forall k :: |steps0| <= k < |steps| ==> steps[k].Read? || steps[k] == Advance
  }

  /** Fills and block writes leave what readers see, of every home block, as it was. */
  lemma {:induction false} QuietLogical(
      g: Geometry, disk: seq<Block>, ss: seq<State>, steps: seq<Step>, i: nat, j: nat, b: nat)
    requires Run(g, disk, ss, steps) && i <= j <= |steps| && IsHome(g, b)
    requires forall k :: i <= k < j ==> steps[k].Read? || steps[k] == Advance
    ensures Inv(g, ss[i]) && Inv(g, ss[j]) && Logical(g, ss[j], b) == Logical(g, ss[i], b)
    decreases j
  {
    hide Next, Boot, Recovered;
    RunInv(g, disk, ss, steps, j);
    if i == j {
    } else {
      QuietLogical(g, disk, ss, steps, i, j - 1, b);
      RunDurable(g, disk, ss, steps, j - 1, b);
    }
  }

  // ---------- what the next block write is ----------

  lemma LogNext(g: Geometry, s: State, i: nat)
    requires Inv(g, s) && s.phase == Logging(i)
    ensures InRange(g, s) && i < |s.lh| && s.lh[i] < g.diskBlocks && LogSlot(g, i) < g.diskBlocks
    ensures Next(g, s, Advance) ==
      Ok(Wrote(s, LogSlot(g, i), Current(s, s.lh[i]), if i + 1 < |s.lh| then Logging(i + 1) else Heading))
  {
    hide CacheOk, Members, Filled, Installed, OpsOk, Distinct, WithHead;
    InvInRange(g, s);
  }

  lemma HeadNext(g: Geometry, s: State)
    requires Inv(g, s) && (s.phase == Heading || Cleared(s.phase))
    ensures InRange(g, s) && Next(g, s, Advance) ==
      Ok(Wrote(s, g.logStart, WithHead(g, Current(s, g.logStart), s.lh), AfterHead(s.phase)))
  {
    hide CacheOk, Members, Filled, Installed, OpsOk, Distinct, WithHead;
    InvInRange(g, s);
  }

  function AfterHead(p: Phase): Phase {
    match p
    case Heading => Installing(0)
    case Clearing => Done
    case _ => Idle
  }

  /** Where `install_trans` stands before round `i` of `n`. */
  function InstallPhase(recovering: bool, i: nat, n: nat): Phase {
    if recovering then (if i < n then Recovering(i) else Resetting) else if i < n then Installing(i) else Clearing
  }

  lemma InstallNext(g: Geometry, s: State, recovering: bool, i: nat)
    requires Inv(g, s) && i < |s.lh| && s.phase == InstallPhase(recovering, i, |s.lh|)
    ensures InRange(g, s) && s.lh[i] < g.diskBlocks && LogSlot(g, i) < g.diskBlocks
    ensures Next(g, s, Advance) ==
      Ok(Wrote(s, s.lh[i], Current(s, LogSlot(g, i)), InstallPhase(recovering, i + 1, |s.lh|)))
  {
    hide CacheOk, Members, Filled, Installed, OpsOk, Distinct, WithHead;
    InvInRange(g, s);
  }

  /** With nothing dirty and no recovery under way, readers see what is on disk. */
  lemma CleanOnDisk(g: Geometry, s: State, b: nat)
    requires Inv(g, s) && s.dirty == {} && !Recovery(s.phase) && IsHome(g, b)
    ensures Logical(g, s, b) == s.disk[b]
  {
  }

  lemma EndNext(g: Geometry, s: State, op: nat)
    requires Inv(g, s) && op < |s.ops|
    ensures s.phase == Idle && !s.committing && Next(g, s, End(op)) == Ok(DoEnd(s, op))
    ensures var t := DoEnd(s, op);
      && |t.ops| == |s.ops| - 1 && t == s.(ops := t.ops, committing := t.committing, phase := t.phase)
      && t.committing == (|s.ops| == 1)
      && t.phase == if |s.ops| > 1 then Idle else if s.lh == [] then Done else Logging(0)
  {
    hide CacheOk, Members, Loggable, IsDisk;
    InvInRange(g, s);
  }

  lemma CrashNext(g: Geometry, s: State, t: State)
    requires Inv(g, s) && IsDisk(g, s.disk) && t == DoCrash(g, s)
    ensures Next(g, s, Crash) == Ok(t) && Inv(g, t) && InRange(g, t)
    ensures Next(g, t, Read(g.logStart)) == Ok(t.(cache := map[g.logStart := s.disk[g.logStart]]))
  {
    hide Inv;
    InvInRange(g, s);
    NextRefines(g, s, Crash);
    InvInRange(g, t);
    assert t.cache[g.logStart := t.disk[g.logStart]] == map[g.logStart := s.disk[g.logStart]];
  }

  /** On the disk of `t`, with an empty log, stands what readers saw in `s`. */
  ghost predicate Settled(g: Geometry, s: State, t: State) {
    && IsDisk(g, s.disk) && IsDisk(g, t.disk) && t.lh == [] && OnDisk(g, t) == []
    && forall b: nat :: IsHome(g, b) ==> t.disk[b] == Logical(g, t, b) == Logical(g, s, b)
  }

  lemma QuietSettled(g: Geometry, disk: seq<Block>, ss: seq<State>, steps: seq<Step>, i: nat)
    requires Run(g, disk, ss, steps) && i <= |steps| && ss[|steps|].phase == Idle && ss[|steps|].lh == []
    requires forall k :: i <= k < |steps| ==> steps[k].Read? || steps[k] == Advance
    ensures Settled(g, ss[i], ss[|steps|])
  {
    hide Next, Boot, Recovered, Listed;
    var t := ss[|steps|];
    RunInv(g, disk, ss, steps, i);
    RunInv(g, disk, ss, steps, |steps|);
    assert Members([]) == {};
    forall b: nat | IsHome(g, b) ensures t.disk[b] == Logical(g, t, b) == Logical(g, ss[i], b) {
      QuietLogical(g, disk, ss, steps, i, |steps|, b);
      CleanOnDisk(g, t, b);
    }
  }

  lemma OpsIdle(g: Geometry, s: State)
    requires Inv(g, s)
    ensures s.ops != [] ==> s.phase == Idle && !s.committing
    ensures s.committing <==> !(s.phase.Idle? || Recovery(s.phase))
  {
  }

  /** The log has an index for `b`, or room for it. */
  lemma LogNumber(g: Geometry, s: State, op: nat, b: nat, data: Block, i: nat)
    requires Inv(g, s) && op < |s.ops| && i <= |s.lh| && b !in s.lh[..i] && (i < |s.lh| ==> s.lh[i] == b)
    ensures DoWrite(s, op, b, data).lh == if i < |s.lh| then s.lh else s.lh + [b]
  {
    assert i == |s.lh| ==> s.lh[..i] == s.lh;
  }

  lemma EndSettled(g: Geometry, disk: seq<Block>, ss: seq<State>, steps: seq<Step>, i: nat)
    requires Run(g, disk, ss, steps) && i < |steps| && ss[|steps|].phase == Idle && ss[|steps|].lh == []
    requires steps[i].End?
    requires forall k :: i < k < |steps| ==> steps[k].Read? || steps[k] == Advance
    ensures Settled(g, ss[i], ss[|steps|])
  {
    hide Next, Boot, Recovered, Listed;
    QuietSettled(g, disk, ss, steps, i + 1);
    RunRefines(g, disk, ss, steps, i);
  }

  lemma CrashDurable(g: Geometry, disk: seq<Block>, ss: seq<State>, steps: seq<Step>, i: nat)
    requires Run(g, disk, ss, steps) && i < |steps| && steps[i] == Crash && Settled(g, ss[i + 1], ss[|steps|])
    ensures Inv(g, ss[i]) && forall b: nat :: IsHome(g, b) ==> ss[|steps|].disk[b] == Durable(g, ss[i], b)
  {
    hide Next, Boot, Recovered, Listed;
    RunRefines(g, disk, ss, steps, i);
  }

  class Log {
    const g: Geometry
    const disk: array<Block>
    var cache: map<nat, Block>
    var dirty: set<nat>
    /** The in-memory header: `n` block numbers, at the head of `block`. */
    const block: array<nat>
    var n: nat
    var outstanding: int
    var committing: bool

    ghost const first: seq<Block>
    ghost var ops: seq<set<nat>>
    ghost var phase: Phase
    ghost var steps: seq<Step>
    ghost var trail: seq<State>

    ghost function View(): State
      requires n <= block.Length
      reads this, disk, block
    {
      State(disk[..], cache, dirty, if Cleared(phase) then [] else block[..n], ops, committing, phase)
    }

    ghost predicate Valid()
      reads this, disk, block
    {
      Whole(ValidFacts())
    }

    ghost predicate ValidFacts()
      reads this, disk, block
    {
      && disk.Length == g.diskBlocks && block.Length == g.logSize && n <= block.Length && outstanding == |ops|
      && |trail| == |steps| + 1 && Run(g, first, trail, steps) && trail[|steps|] == View()
    }

    /** `mkfs`, then the first boot, on which there is nothing to install. */
    constructor (g: Geometry, disk: array<Block>)
      requires FreshDisk(g, disk[..])
      ensures Valid() && this.g == g && this.disk == disk && View() == Boot(g, disk[..])
      ensures fresh(block) && first == disk[..] && steps == []
    {
      this.g := g;
      this.disk := disk;
      cache, dirty, n, outstanding, committing := map[], {}, 0, 0, false;
      block := new nat[g.logSize];
      ops, phase, first, steps := [], Resetting, disk[..], [];
      trail := [Boot(g, disk[..])];
    }

    ghost method Record(step: Step, t: State)
      requires |trail| == |steps| + 1 && Run(g, first, trail, steps) && Next(g, trail[|steps|], step) == Ok(t)
      modifies this`steps, this`trail
      ensures Run(g, first, trail, steps) && trail == old(trail) + [t] && steps == old(steps) + [step]
    {
      Extend(g, first, trail, steps, step, t);
      trail, steps := trail + [t], steps + [step];
    }

    lemma Invariant()
      requires Valid()
      ensures Inv(g, View()) && InRange(g, View())
    {
      RunInv(g, first, trail, steps, |steps|);
      InvInRange(g, View());
    }

    // ---------- blocks ----------

    method Bread(b: nat) returns (data: Block)
      requires Valid() && b < g.diskBlocks
      modifies this`cache, this`steps, this`trail
      ensures Valid() && data == Current(old(View()), b)
      ensures View() == old(View()).(cache := old(cache)[b := data])
      ensures steps == old(steps) + [Read(b)] && trail == old(trail) + [View()]
    {
      hide Run, Inv;
      Invariant();
      if b !in cache { cache := cache[b := disk[b]]; }
      data := cache[b];
      assert cache == old(cache)[b := data];
      Record(Read(b), View());
    }

    method BreadTwo(b: nat, c: nat) returns (x: Block, y: Block)
      requires Valid() && b < g.diskBlocks && c < g.diskBlocks
      modifies this`cache, this`steps, this`trail
      ensures Valid() && View() == old(View()).(cache := cache)
      ensures b in cache && c in cache && x == cache[b] == Current(old(View()), b) && y == cache[c] == Current(old(View()), c)
      ensures Quietly(old(steps), old(trail), steps, trail)
    {
      hide Run, Inv, Next;
      x := Bread(b);
      y := Bread(c);
    }

    /** The one place where the disk changes: a step of the commit or of a recovery. */
    method Bwrite(b: nat, data: Block, ghost to: Phase)
      requires Valid() && b < g.diskBlocks
      requires Next(g, View(), Advance) == Ok(Wrote(View(), b, data, to))
      requires Cleared(phase) && !Cleared(to) ==> n == 0
      modifies this`cache, this`dirty, this`phase, this`steps, this`trail, disk
      ensures Valid() && View() == Wrote(old(View()), b, data, to)
      ensures steps == old(steps) + [Advance] && trail == old(trail) + [View()]
    {
      hide Run, Inv, Next;
      disk[b] := data;
      cache, dirty := cache[b := data], dirty - {b};
      phase := to;
      assert View() == Wrote(old(View()), b, data, to);
      Record(Advance, View());
    }

    // ---------- commit ----------

    method WriteLog()
      requires Valid() && phase == Logging(0)
      modifies this`cache, this`dirty, this`phase, this`steps, this`trail, disk
      ensures Valid() && phase == Heading && Quietly(old(steps), old(trail), steps, trail)
    {
      hide Run, Inv, Next;
      var tail := 0;
      Invariant();
      LogNext(g, View(), 0);
      while tail < n
        invariant Valid() && tail <= n && phase == if tail < n then Logging(tail) else Heading
        invariant Quietly(old(steps), old(trail), steps, trail)
      {
        LogRound(tail);
        tail := tail + 1;
      }
    }

    method LogRound(tail: nat)
      requires Valid() && phase == Logging(tail)
      modifies this`cache, this`dirty, this`phase, this`steps, this`trail, disk
      ensures Valid() && tail < n && phase == if tail + 1 < n then Logging(tail + 1) else Heading
      ensures Quietly(old(steps), old(trail), steps, trail)
    {
      hide Run, Inv, Next;
      Invariant();
      LogNext(g, View(), tail);
      var to, from := BreadTwo(g.logStart + tail + 1, block[tail]);
      Invariant();
      LogNext(g, View(), tail);
      Bwrite(g.logStart + tail + 1, from, if tail + 1 < n then Logging(tail + 1) else Heading);
    }

    /** The copy of the in-memory header into the buffer of the header block. */
    method FillHead(header: Block, ghost s: State) returns (hb: Block)
      requires Valid() && View() == s && |header| == g.words && (Cleared(phase) ==> n == 0)
      ensures Valid() && View() == s && |s.lh| <= g.logSize && hb == WithHead(g, header, s.lh)
    {
      hide Run, Inv;
      hb := header[0 := n];
      var i := 0;
      while i < n
        invariant i <= n && |hb| == |header| && hb[0] == n && hb[1..1 + i] == block[..i]
        invariant forall k :: 1 + i <= k < |hb| ==> hb[k] == header[k]
      {
        hb := hb[1 + i := block[i]];
        i := i + 1;
      }
      assert s.lh == block[..n];
    }

    /** `write_head`: the commit point when it is called for the first time in a commit. */
    method WriteHead()
      requires Valid() && (phase == Heading || (Cleared(phase) && n == 0))
      modifies this`cache, this`dirty, this`phase, this`steps, this`trail, disk
      ensures Valid() && phase == AfterHead(old(phase)) && Quietly(old(steps), old(trail), steps, trail)
      ensures View().lh == old(View()).lh
    {
      hide Run, Inv, Next, WithHead, IsDisk, InRange, Put;
      var header := Bread(g.logStart);
      Invariant();
      ghost var s := View();
      HeadNext(g, s);
      var hb := FillHead(header, s);
      Bwrite(g.logStart, hb, AfterHead(phase));
    }

    method InstallTrans(ghost recovering: bool)
      requires Valid() && phase == InstallPhase(recovering, 0, n)
      modifies this`cache, this`dirty, this`phase, this`steps, this`trail, disk
      ensures Valid() && phase == (if recovering then Resetting else Clearing)
      ensures Quietly(old(steps), old(trail), steps, trail)
    {
      hide Run, Inv, Next;
      var tail := 0;
      while tail < n
        invariant Valid() && tail <= n && phase == InstallPhase(recovering, tail, n)
        invariant Quietly(old(steps), old(trail), steps, trail)
      {
        InstallRound(recovering, tail);
        tail := tail + 1;
      }
    }

    method InstallRound(ghost recovering: bool, tail: nat)
      requires Valid() && tail < n && phase == InstallPhase(recovering, tail, n)
      modifies this`cache, this`dirty, this`phase, this`steps, this`trail, disk
      ensures Valid() && phase == InstallPhase(recovering, tail + 1, n)
      ensures Quietly(old(steps), old(trail), steps, trail)
    {
      hide Run, Inv, Next;
      Invariant();
      InstallNext(g, View(), recovering, tail);
      var lbuf, dbuf := BreadTwo(g.logStart + tail + 1, block[tail]);
      Invariant();
      InstallNext(g, View(), recovering, tail);
      Bwrite(block[tail], lbuf, InstallPhase(recovering, tail + 1, n));
    }

    /** `commit`: readers see throughout what they saw before, and at the end the disk holds it. */
    method Commit()
      requires Valid() && phase == (if n > 0 then Logging(0) else Done)
      modifies this`cache, this`dirty, this`phase, this`steps, this`trail, this`n, disk
      ensures Valid() && phase == Done && n == 0 && Quietly(old(steps), old(trail), steps, trail)
    {
      hide Run, Inv, Next;
      if n > 0 {
        WriteLog();
        WriteHead();
        InstallTrans(false);
        n := 0;
        WriteHead();
      }
    }

    // ---------- operations ----------

    /** One turn of the loop in `begin_op`: the operation starts, or has to sleep. */
    method BeginOp() returns (started: bool)
      requires Valid() && !Recovery(phase)
      modifies this`outstanding, this`ops, this`steps, this`trail
      ensures Valid() && started == MayBegin(g, old(View()))
      ensures if started then View() == old(View()).(ops := old(ops) + [{}]) && steps == old(steps) + [Begin]
        else View() == old(View()) && steps == old(steps)
    {
      hide Run, Inv;
      Invariant();
      OpsIdle(g, View());
      if committing {
        return false;
      } else if n + (outstanding + 1) * g.maxOpBlocks > g.logSize {
        return false;
      }
      outstanding, ops := outstanding + 1, ops + [{}];
      Record(Begin, View());
      return true;
    }

    /** `log_write` of a buffer that holds `data`; false stands for its panics. */
    method LogWrite(ghost op: nat, b: nat, data: Block) returns (ok: bool)
      requires Valid() && IsHome(g, b) && |data| == g.words
      requires outstanding >= 1 ==> op < |ops|
      modifies this`cache, this`dirty, this`n, this`ops, this`steps, this`trail, block
      ensures Valid() && ok == (!TooBig(g, old(View())) && outstanding >= 1)
      ensures if ok then View() == DoWrite(old(View()), op, b, data) && steps == old(steps) + [Write(op, b, data)]
        else View() == old(View()) && steps == old(steps)
    {
      hide Run, Inv;
      Invariant();
      OpsIdle(g, View());
      if n >= g.logSize || n >= g.logBlocks - 1 { return false; }
      if outstanding < 1 { return false; }
      var i := 0;
      while i < n && block[i] != b
        invariant i <= n && b !in block[..i]
      {
        i := i + 1;
      }
      LogNumber(g, View(), op, b, data, i);
      Enter(op, b, data, i);
      ok := true;
    }

    method Enter(ghost op: nat, b: nat, data: Block, i: nat)
      requires Valid() && phase == Idle && op < |ops| && i <= n < block.Length && (i < n ==> block[i] == b)
      requires DoWrite(View(), op, b, data).lh == if i < n then View().lh else View().lh + [b]
      requires Next(g, View(), Write(op, b, data)) == Ok(DoWrite(View(), op, b, data))
      modifies this`cache, this`dirty, this`n, this`ops, this`steps, this`trail, block
      ensures Valid() && View() == DoWrite(old(View()), op, b, data)
      ensures steps == old(steps) + [Write(op, b, data)]
    {
      hide Run, Next;
      block[i] := b;
      if i == n { n := n + 1; }
      cache, dirty := cache[b := data], dirty + {b};
      ops := ops[op := ops[op] + {b}];
      assert View() == DoWrite(old(View()), op, b, data);
      Record(Write(op, b, data), View());
    }

    /** `end_op`. The last operation to end commits: the disk then holds what readers saw. */
    method EndOp(ghost op: nat)
      requires Valid() && op < |ops|
      modifies this`cache, this`dirty, this`n, this`outstanding, this`committing
      modifies this`ops, this`phase, this`steps, this`trail, disk
      ensures Valid() && phase == Idle && !committing && outstanding == old(outstanding) - 1
      ensures Quietly(old(steps) + [End(op)], old(trail) + [DoEnd(old(View()), op)], steps, trail)
      ensures old(outstanding) > 1 ==> View() == DoEnd(old(View()), op) && steps == old(steps) + [End(op)]
      ensures old(outstanding) == 1 ==> Settled(g, old(View()), View())
    {
      hide Run, Inv, Recovered, Settled, Next;
      LeaveOp(op);
      if outstanding == 0 {
        FinishOps();
        EndSettled(g, first, trail, steps, |old(steps)|);
      }
    }

    /** The locked part of `end_op`. */
    method LeaveOp(ghost op: nat)
      requires Valid() && op < |ops|
      modifies this`outstanding, this`committing, this`ops, this`phase, this`steps, this`trail
      ensures Valid() && View() == DoEnd(old(View()), op) && outstanding == old(outstanding) - 1
      ensures steps == old(steps) + [End(op)] && trail == old(trail) + [View()]
      ensures (committing <==> outstanding == 0) && (outstanding > 0 ==> phase == Idle)
    {
      hide Run, Inv, Next, DoEnd;
      Invariant();
      EndNext(g, View(), op);
      ops := DoEnd(View(), op).ops;
      outstanding := outstanding - 1;
      assert !committing;
      if outstanding == 0 {
        committing, phase := true, if n == 0 then Done else Logging(0);
      }
      Record(End(op), View());
    }

    method FinishOps()
      requires Valid() && committing && outstanding == 0 && phase == (if n > 0 then Logging(0) else Done)
      modifies this`cache, this`dirty, this`n, this`committing, this`phase, this`steps, this`trail, disk
      ensures Valid() && phase == Idle && !committing && n == 0 && outstanding == 0
      ensures Quietly(old(steps), old(trail), steps, trail)
    {
      hide Run, Inv;
      Commit();
      Invariant();
      committing, phase := false, Idle;
      Record(Advance, View());
    }

    // ---------- crashes ----------

    method ReadHead()
      requires block.Length == g.logSize && disk.Length == g.diskBlocks && IsDisk(g, disk[..]) && cache == map[]
      modifies this`cache, this`n, block
      ensures n <= block.Length && block[..n] == Listed(g, disk[g.logStart])
      ensures cache == map[g.logStart := disk[g.logStart]]
    {
      var header := disk[g.logStart];
      cache := cache[g.logStart := header];
      n := header[0];
      var i := 0;
      while i < n
        invariant i <= n == header[0] && block[..i] == header[1..1 + i]
        invariant cache == map[g.logStart := disk[g.logStart]]
      {
        block[i] := header[1 + i];
        i := i + 1;
      }
    }

    /** A crash in any state, between any two block writes, and the boot that follows with
        `recover_from_log`: every home block ends as it would survive, on an empty log. */
    method Reboot()
      requires Valid()
      modifies this, disk, block
      ensures Valid() && phase == Idle && outstanding == 0
      ensures IsDisk(g, old(disk[..])) && Settled(g, DoCrash(g, old(View())), View())
      ensures Quietly(old(steps) + [Crash], old(trail) + [DoCrash(g, old(View()))], steps, trail)
      ensures forall b: nat :: IsHome(g, b) ==> disk[b] == Durable(g, old(View()), b)
    {
      hide Run, Inv, Recovered, Settled, Next;
      Restart();
      InstallTrans(true);
      n := 0;
      WriteHead();
      QuietSettled(g, first, trail, steps, |old(steps)| + 1);
      CrashDurable(g, first, trail, steps, |old(steps)|);
    }

    /** Memory is lost, and `read_head` brings back what the header on disk lists. */
    method Restart()
      requires Valid()
      modifies this, block
      ensures Valid() && outstanding == 0 && phase == InstallPhase(true, 0, n)
      ensures InRange(g, old(View())) && Quietly(old(steps) + [Crash], old(trail) + [DoCrash(g, old(View()))], steps, trail)
    {
      hide Run, Inv, Next, DoCrash;
      Invariant();
      CrashNext(g, View(), DoCrash(g, View()));
      Forget();
      Record(Crash, View().(cache := map[]));
      Record(Read(g.logStart), View());
    }

    method Forget()
      requires block.Length == g.logSize && n <= block.Length && disk.Length == g.diskBlocks && IsDisk(g, disk[..])
      modifies this`cache, this`dirty, this`n, this`outstanding, this`committing, this`ops, this`phase, block
      ensures n <= block.Length && outstanding == 0 && ops == [] && phase == InstallPhase(true, 0, n)
      ensures View().(cache := map[]) == DoCrash(g, old(View())) && cache == map[g.logStart := disk[g.logStart]]
    {
      hide Listed;
      cache, dirty, outstanding, committing, ops := map[], {}, 0, false, [];
      ReadHead();
      phase := InstallPhase(true, 0, n);
    }
  }
}
