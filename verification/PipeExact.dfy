/**
What every call on a pipe does, said from the bytes in the ring: what it moves, who sleeps, who is
woken and who returns.
*/
module PipeExact {
  import opened Base
  import opened Pipe
  import opened PipeRuns

  /** The calls of all but `p`; those of readers, or of writers, are awake if `woken`. */
  predicate OthersAwake(a: seq<Call>, b: seq<Call>, p: nat, readers: bool, woken: bool) {
    && |b| == |a|
    && forall i :: 0 <= i < |a| && i != p ==>
      b[i] == if !woken || a[i].Away? || a[i].Reading? != readers then a[i] else a[i].(asleep := false)
  }

  /** A read or its resumption. On an empty pipe that may still be written to, a killed process returns
      and any other sleeps, and nothing else happens. Else it takes as many bytes as it asks for and as
      there are from the front, wakes the writers and returns. */
  lemma ReadExact(s: State, step: Step, p: nat, n: nat)
    requires Enabled(s, step) && p < |s.calls|
    requires step == Read(p, n) || (step == Resume(p) && s.calls[p].Reading? && s.calls[p].n == n)
    ensures var t, q := Next(s, step), Queued(s.ring);
      && Shaped(t) && t.sent == s.sent && t.killed == s.killed && |t.calls| == |s.calls|
      && t.ring.readopen == s.ring.readopen && t.ring.writeopen == s.ring.writeopen
      && if q == [] && s.ring.writeopen then
           && t.ring == s.ring && t.received == s.received
           && t.calls[p] == (if s.killed[p] then Away else Reading(n, true)) && OthersAwake(s.calls, t.calls, p, false, false)
         else
           && t.received == s.received + q[..Min(n, |q|)] && Queued(t.ring) == q[Min(n, |q|)..]
           && t.calls[p] == Away && OthersAwake(s.calls, t.calls, p, false, true)
  {
    Tests(s.ring);
    TakeAllDequeues(s.ring, n);
    var (ring, out) := TakeAll(s.ring, n);
    var q := Queued(s.ring);
    assert q == out + Queued(ring);
    assert q[..|out|] == out && q[|out|..] == Queued(ring);
  }

  /** A write or its resumption puts as many bytes as there is room for behind those in the ring. With
      all of them in it wakes the readers and returns. Else it returns, waking nobody, if the pipe can
      no longer be read or the process is killed, and otherwise wakes the readers and sleeps with the rest. */
  lemma WriteExact(s: State, step: Step, p: nat, bytes: seq<nat>)
    requires Enabled(s, step) && p < |s.calls|
    requires step == Write(p, bytes) || (step == Resume(p) && s.calls[p].Writing? && s.calls[p].left == bytes)
    ensures var t, q := Next(s, step), Queued(s.ring);
      var m := Min(|bytes|, SIZE - |q|);
      && 0 <= m && Shaped(t) && t.received == s.received && t.killed == s.killed && |t.calls| == |s.calls|
      && t.ring.readopen == s.ring.readopen && t.ring.writeopen == s.ring.writeopen
      && t.sent == s.sent + bytes[..m] && Queued(t.ring) == q + bytes[..m]
      && if m == |bytes| then
           t.calls[p] == Away && OthersAwake(s.calls, t.calls, p, true, true)
         else if !s.ring.readopen || s.killed[p] then
           t.calls[p] == Away && OthersAwake(s.calls, t.calls, p, true, false)
         else
           t.calls[p] == Writing(bytes[m..], true) && OthersAwake(s.calls, t.calls, p, true, true)
  {
    PutAllQueues(s.ring, bytes);
    var (ring, left) := PutAll(s.ring, bytes);
    Tests(s.ring);
    Tests(ring);
  }

  /** Closing an end wakes the sleepers on the other, and changes nothing else. */
  lemma CloseExact(s: State, writable: bool)
    requires Enabled(s, Close(writable))
    ensures var t := Next(s, Close(writable));
      && t.ring == (if writable then s.ring.(writeopen := false) else s.ring.(readopen := false))
      && t.sent == s.sent && t.received == s.received && t.killed == s.killed
      && OthersAwake(s.calls, t.calls, |s.calls|, writable, true)
  {
  }

  /** A killed process is marked, and awake if it slept in a call. */
  lemma KillExact(s: State, p: nat)
    requires Enabled(s, Kill(p))
    ensures var t := Next(s, Kill(p));
      && t == s.(killed := t.killed, calls := t.calls) && t.killed == s.killed[p := true]
      && |t.calls| == |s.calls| && !Sleeping(t.calls[p])
      && (forall i :: 0 <= i < |s.calls| && i != p ==> t.calls[i] == s.calls[i])
      && (t.calls[p].Away? <==> s.calls[p].Away?)
      && (t.calls[p].Writing? <==> s.calls[p].Writing?) && (t.calls[p].Writing? ==> t.calls[p].left == s.calls[p].left)
      && (t.calls[p].Reading? ==> t.calls[p].n == s.calls[p].n)
  {
  }
}
