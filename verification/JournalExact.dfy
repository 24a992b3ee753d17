/**
What `begin_op`, `log_write`, `end_op` and a crash do to the log in memory, field by field.
*/
module JournalExact {
  import opened Base
  import opened Journal
  import opened JournalProofs

  /** An operation begins exactly if nothing commits or recovers and the log has room for it besides
      those under way; then it has logged nothing, and nothing else changes. */
  lemma BeginExact(g: Geometry, s: State)
    requires Inv(g, s)
    ensures Next(g, s, Begin).Ok? <==>
      !s.committing && !Recovery(s.phase) && |s.lh| + (|s.ops| + 1) * g.maxOpBlocks <= g.logSize
    ensures Next(g, s, Begin).Ok? ==> Next(g, s, Begin).next == s.(ops := s.ops + [{}])
  {
    hide InvFacts;
    InvInRange(g, s);
  }

  /** A logged write changes the cached block and keeps it from eviction, lists its number last unless
      it is listed already, and leaves the disk alone. */
  lemma LogWriteExact(g: Geometry, s: State, op: nat, b: nat, data: Block)
    requires Inv(g, s) && op < |s.ops| && Next(g, s, Write(op, b, data)).Ok?
    ensures var t := Next(g, s, Write(op, b, data)).next;
      && t.disk == s.disk && t.phase == s.phase && t.committing == s.committing
      && b in t.cache && t.cache[b] == data && b in t.dirty && t.dirty - {b} == s.dirty - {b}
      && (forall x :: x != b ==> (x in t.cache <==> x in s.cache) && (x in s.cache ==> t.cache[x] == s.cache[x]))
      && |t.lh| == (if b in s.lh then |s.lh| else |s.lh| + 1) && s.lh <= t.lh && b in t.lh
      && |t.ops| == |s.ops| && (forall k :: 0 <= k < |s.ops| ==> t.ops[k] == if k == op then s.ops[k] + {b} else s.ops[k])
  {
    hide InvFacts;
    InvInRange(g, s);
  }

  /** When an operation ends, those before and after it stay in order. The last to end starts the
      commit, and nothing else is changed by that. */
  lemma EndExact(g: Geometry, s: State, op: nat)
    requires Inv(g, s) && op < |s.ops|
    ensures Next(g, s, End(op)).Ok?
    ensures var t := Next(g, s, End(op)).next;
      && t.disk == s.disk && t.cache == s.cache && t.dirty == s.dirty && t.lh == s.lh
      && |t.ops| == |s.ops| - 1 && (forall k :: 0 <= k < |t.ops| ==> t.ops[k] == s.ops[if k < op then k else k + 1])
      && (t.committing <==> |s.ops| == 1)
      && t.phase == if |s.ops| > 1 then Idle else if s.lh == [] then Done else Logging(0)
  {
    InvInRange(g, s);
    EndStep(g, s, op);
    assert s.phase == Idle;
  }

  /** A crash loses all but the disk; recovery has the list that it finds there to install, if any. */
  lemma CrashExact(g: Geometry, s: State)
    requires Inv(g, s)
    ensures Next(g, s, Crash).Ok?
    ensures var t, listed := Next(g, s, Crash).next, Listed(g, s.disk[g.logStart]);
      && t.disk == s.disk && t.cache == map[] && t.dirty == {} && t.ops == [] && !t.committing && t.lh == listed
      && t.phase == if listed == [] then Resetting else Recovering(0)
  {
    InvInRange(g, s);
  }
}
