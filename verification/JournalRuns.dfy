/**
What the journal guarantees over whole runs, with crashes anywhere: atomicity and durability of
groups of operations.
*/
module JournalRuns {
  import opened Base
  import opened Journal
  import opened JournalProofs

  /** A run from a freshly made disk. */
  ghost predicate Run(g: Geometry, disk: seq<Block>, ss: seq<State>, steps: seq<Step>) {
    Whole(RunFacts(g, disk, ss, steps))
  }

  ghost predicate RunFacts(g: Geometry, disk: seq<Block>, ss: seq<State>, steps: seq<Step>) {
    && FreshDisk(g, disk) && |ss| == |steps| + 1 && ss[0] == Boot(g, disk)
    && forall i {:trigger steps[i]} :: 0 <= i < |steps| ==> Next(g, ss[i], steps[i]) == Ok(ss[i + 1])
  }

  lemma BootInv(g: Geometry, disk: seq<Block>)
    requires FreshDisk(g, disk)
    ensures Inv(g, Boot(g, disk))
  {
    assert Loggable(g, []);
  }

  lemma {:induction false} RunInv(g: Geometry, disk: seq<Block>, ss: seq<State>, steps: seq<Step>, i: nat)
    requires Run(g, disk, ss, steps) && i <= |steps|
    ensures Inv(g, ss[i])
  {
    hide Next, Boot;
    if i == 0 {
      BootInv(g, disk);
    } else {
      RunInv(g, disk, ss, steps, i - 1);
      assert Next(g, ss[i - 1], steps[i - 1]) == Ok(ss[i - 1 + 1]);
      NextRefines(g, ss[i - 1], steps[i - 1]);
    }
  }

  lemma RunRefines(g: Geometry, disk: seq<Block>, ss: seq<State>, steps: seq<Step>, i: nat)
    requires Run(g, disk, ss, steps) && i < |steps|
    ensures Inv(g, ss[i]) && Inv(g, ss[i + 1]) && Refines(g, ss[i], steps[i], ss[i + 1])
    ensures IsCommitPoint(ss[i], steps[i]) ==> ss[i].ops == []
  {
    hide Next, Boot;
    RunInv(g, disk, ss, steps, i);
    RunInv(g, disk, ss, steps, i + 1);
    assert Next(g, ss[i], steps[i]) == Ok(ss[i + 1]);
    NextRefines(g, ss[i], steps[i]);
  }

  // ---------- atomicity and durability ----------

  /** What would survive a crash stays the same as long as there is no commit point, whatever else
      happens: writes, evictions, crashes, recoveries that crash again. */
  lemma {:induction false} DurableBetweenCommits(
      g: Geometry, disk: seq<Block>, ss: seq<State>, steps: seq<Step>, i: nat, j: nat, b: nat)
    requires Run(g, disk, ss, steps) && i <= j <= |steps| && IsHome(g, b)
    requires forall n :: i <= n < j ==> !IsCommitPoint(ss[n], steps[n])
    ensures Inv(g, ss[i]) && Inv(g, ss[j]) && Durable(g, ss[j], b) == Durable(g, ss[i], b)
    decreases j
  {
    hide Next, Boot, Recovered, Refines;
    RunInv(g, disk, ss, steps, j);
    if i == j {
    } else {
      DurableBetweenCommits(g, disk, ss, steps, i, j - 1, b);
      RunDurable(g, disk, ss, steps, j - 1, b);
    }
  }

  lemma RunDurable(g: Geometry, disk: seq<Block>, ss: seq<State>, steps: seq<Step>, n: nat, b: nat)
    requires Run(g, disk, ss, steps) && n < |steps| && IsHome(g, b)
    ensures Inv(g, ss[n]) && Inv(g, ss[n + 1])
    ensures Durable(g, ss[n + 1], b) == if IsCommitPoint(ss[n], steps[n]) then Logical(g, ss[n], b) else Durable(g, ss[n], b)
    ensures Logical(g, ss[n + 1], b) == NextLogical(g, ss[n], steps[n], b)
  {
    hide Next, Boot, Recovered;
    RunRefines(g, disk, ss, steps, n);
  }

  /** Durability: what survives is what readers saw at the last commit point, when no operation was
      under way; so every operation survives whole or not at all. */
  lemma DurableIsLastCommit(
      g: Geometry, disk: seq<Block>, ss: seq<State>, steps: seq<Step>, k: nat, j: nat, b: nat)
    requires Run(g, disk, ss, steps) && k < j <= |steps| && IsHome(g, b) && IsCommitPoint(ss[k], steps[k])
    requires forall n :: k < n < j ==> !IsCommitPoint(ss[n], steps[n])
    ensures Inv(g, ss[k]) && Inv(g, ss[j])
    ensures ss[k].ops == [] && Durable(g, ss[j], b) == Logical(g, ss[k], b)
  {
    hide Next, Boot, Recovered, Refines, Inv, Logical;
    RunRefines(g, disk, ss, steps, k);
    RunDurable(g, disk, ss, steps, k, b);
    DurableBetweenCommits(g, disk, ss, steps, k + 1, j, b);
  }

  /** Crash atomicity: from a crash at any step, through any number of further crashes during
      recovery, a finished recovery leaves every home block as it would have survived the first
      crash, on an empty log. */
  lemma CrashAtomicity(
      g: Geometry, disk: seq<Block>, ss: seq<State>, steps: seq<Step>, i: nat, j: nat, b: nat)
    requires Run(g, disk, ss, steps) && i < j <= |steps| && IsHome(g, b) && steps[i] == Crash
    requires (forall n :: i < n < j ==> Recovery(ss[n].phase)) && !Recovery(ss[j].phase)
    ensures Inv(g, ss[i]) && Inv(g, ss[j])
    ensures Logical(g, ss[j], b) == Durable(g, ss[j], b) == Durable(g, ss[i], b) == ss[j].disk[b]
    ensures ss[j].phase == Idle && ss[j].lh == [] && OnDisk(g, ss[j]) == []
  {
    hide Next, Boot, Recovered, Listed;
    CrashLeadsToRecovery(g, disk, ss, steps, i);
    DurableBetweenCommits(g, disk, ss, steps, i, j, b);
    assert Recovery(ss[j - 1].phase);
    RecoveryEnds(g, disk, ss, steps, j - 1, b);
  }

  lemma CrashLeadsToRecovery(g: Geometry, disk: seq<Block>, ss: seq<State>, steps: seq<Step>, i: nat)
    requires Run(g, disk, ss, steps) && i < |steps| && steps[i] == Crash
    ensures Recovery(ss[i + 1].phase)
  {
    assert Next(g, ss[i], steps[i]) == Ok(ss[i + 1]);
  }

  /** The step that ends a recovery is the write that clears the log. */
  lemma RecoveryEnds(g: Geometry, disk: seq<Block>, ss: seq<State>, steps: seq<Step>, n: nat, b: nat)
    requires Run(g, disk, ss, steps) && n < |steps| && Recovery(ss[n].phase) && !Recovery(ss[n + 1].phase) && IsHome(g, b)
    ensures Inv(g, ss[n + 1]) && Logical(g, ss[n + 1], b) == Durable(g, ss[n + 1], b) == ss[n + 1].disk[b]
    ensures ss[n + 1].phase == Idle && ss[n + 1].lh == [] && OnDisk(g, ss[n + 1]) == []
  {
    RunInv(g, disk, ss, steps, n);
    RunInv(g, disk, ss, steps, n + 1);
    assert Next(g, ss[n], steps[n]) == Ok(ss[n + 1]);
    RecoveryExit(g, ss[n], steps[n]);
    RecoveredUnlisted(g, ss[n + 1].disk, b);
    assert ss[n + 1].dirty == {};
  }

  lemma RecoveryExit(g: Geometry, s: State, step: Step)
    requires Inv(g, s) && Recovery(s.phase) && Next(g, s, step).Ok? && !Recovery(Next(g, s, step).next.phase)
    ensures s.phase == Resetting && step == Advance
    ensures var t := Next(g, s, step).next;
      t.phase == Idle && t.lh == [] && t.dirty == {} && IsDisk(g, t.disk) && Listed(g, t.disk[g.logStart]) == []
  {
    InvInRange(g, s);
    HeadCurrent(g, s);
  }

  /** Any run can be extended by a step. */
  lemma Extend(g: Geometry, disk: seq<Block>, ss: seq<State>, steps: seq<Step>, step: Step, t: State)
    requires Run(g, disk, ss, steps) && Next(g, ss[|steps|], step) == Ok(t)
    ensures Run(g, disk, ss + [t], steps + [step])
  {
    hide Next, Boot;
    var ss', steps' := ss + [t], steps + [step];
    forall i {:trigger steps'[i]} | 0 <= i < |steps'| ensures Next(g, ss'[i], steps'[i]) == Ok(ss'[i + 1]) {
      if i < |steps| { assert Next(g, ss[i], steps[i]) == Ok(ss[i + 1]); }
    }
  }
}
