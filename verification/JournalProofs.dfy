/**
The journal refines an atomic store: the contents a reader sees change only by writes, the
contents that survive a crash only by the one header write of a commit, with no operation under
way; a crash at any point makes the former fall back to the latter.
*/
module JournalProofs {
  import opened Base
  import opened Journal

  /** Cached blocks are blocks of the disk, dirty ones are cached, clean ones agree with the disk. */
  ghost predicate CacheOk(g: Geometry, s: State) {
    && s.dirty <= s.cache.Keys
    && forall b :: b in s.cache ==>
      b < |s.disk| && |s.cache[b]| == g.words && (b !in s.dirty ==> s.cache[b] == s.disk[b])
  }

  ghost function OnDisk(g: Geometry, s: State): seq<nat>
    requires IsDisk(g, s.disk)
  {
    Listed(g, s.disk[g.logStart])
  }

  /** The first `n` log slots hold the current contents of the blocks listed in memory. */
  ghost predicate Filled(g: Geometry, s: State, n: nat) {
    && n <= |s.lh| && |s.disk| == g.diskBlocks
    && forall j :: 0 <= j < n ==>
      s.lh[j] < |s.disk| && LogSlot(g, j) < |s.disk| && s.disk[LogSlot(g, j)] == Current(s, s.lh[j])
  }

  /** The first `n` blocks listed on disk are installed. */
  ghost predicate Installed(g: Geometry, s: State, n: nat)
    requires IsDisk(g, s.disk)
  {
    && n <= |OnDisk(g, s)|
    && forall j :: 0 <= j < n ==>
      OnDisk(g, s)[j] < |s.disk| && LogSlot(g, j) < |s.disk| && s.disk[OnDisk(g, s)[j]] == s.disk[LogSlot(g, j)]
  }

  ghost predicate PhaseOk(g: Geometry, s: State)
    requires IsDisk(g, s.disk)
  {
    match s.phase
    case Idle => OnDisk(g, s) == [] && s.dirty == Members(s.lh)
    case Logging(i) => i < |s.lh| && OnDisk(g, s) == [] && s.dirty == Members(s.lh) && Filled(g, s, i)
    case Heading => s.lh != [] && OnDisk(g, s) == [] && s.dirty == Members(s.lh) && Filled(g, s, |s.lh|)
    case Installing(i) =>
      i < |s.lh| && OnDisk(g, s) == s.lh && s.dirty == Members(s.lh[i..]) && Filled(g, s, |s.lh|)
    case Clearing => s.lh == [] && s.dirty == {} && Installed(g, s, |OnDisk(g, s)|)
    case Done => s.lh == [] && s.dirty == {} && OnDisk(g, s) == []
    case Recovering(i) => i < |s.lh| && OnDisk(g, s) == s.lh && s.dirty == {} && Installed(g, s, i)
    case Resetting => s.lh == [] && s.dirty == {} && Installed(g, s, |OnDisk(g, s)|)
  }

  /** Group commit: no operation is under way during a commit or a recovery, and what an operation
      logged is in the log. */
  ghost predicate OpsOk(g: Geometry, s: State) {
    && (s.committing <==> !(s.phase.Idle? || Recovery(s.phase)))
    && (s.committing || Recovery(s.phase) ==> s.ops == [])
    && (forall k :: 0 <= k < |s.ops| ==> s.ops[k] <= Members(s.lh))
  }

  ghost predicate Inv(g: Geometry, s: State) { Whole(InvFacts(g, s)) }

  ghost predicate InvFacts(g: Geometry, s: State) {
    && IsDisk(g, s.disk) && CacheOk(g, s) && Loggable(g, s.lh) && Loggable(g, OnDisk(g, s))
    && PhaseOk(g, s) && OpsOk(g, s)
  }

  lemma InvInRange(g: Geometry, s: State)
    requires Inv(g, s)
    ensures InRange(g, s)
  {
  }

  // ---------- what a reader sees and what survives ----------

  /** The contents of home block `b` as the file system sees it. */
  ghost function Logical(g: Geometry, s: State, b: nat): Block
    requires IsDisk(g, s.disk) && b < g.diskBlocks
  {
    if Recovery(s.phase) then Recovered(g, s.disk, b) else Current(s, b)
  }

  /** The contents of home block `b` after a crash at this point and a finished recovery. */
  ghost function Durable(g: Geometry, s: State, b: nat): Block
    requires IsDisk(g, s.disk) && b < g.diskBlocks
  {
    Recovered(g, s.disk, b)
  }

  lemma {:induction false} IndexIs(lh: seq<nat>, i: nat)
    requires Distinct(lh) && i < |lh|
    ensures IndexOf(lh, lh[i]) == i
  {
    var k := IndexOf(lh, lh[i]);
    assert lh[i] in lh;
    assert lh[k] == lh[i];
  }

  lemma RecoveredUnlisted(g: Geometry, disk: seq<Block>, b: nat)
    requires IsDisk(g, disk) && b < g.diskBlocks && b !in Listed(g, disk[g.logStart])
    ensures Recovered(g, disk, b) == disk[b]
  {
  }

  lemma RecoveredListed(g: Geometry, disk: seq<Block>, lh: seq<nat>, i: nat)
    requires IsDisk(g, disk) && Listed(g, disk[g.logStart]) == lh && i < |lh| && Loggable(g, lh)
    ensures LogSlot(g, i) < g.diskBlocks && Recovered(g, disk, lh[i]) == disk[LogSlot(g, i)]
  {
    hide Listed;
    IndexIs(lh, i);
  }

  /** Two disks with the same header and log slots, and home blocks that differ only where listed,
      recover alike. */
  lemma RecoveredSame(g: Geometry, d: seq<Block>, e: seq<Block>, lh: seq<nat>, b: nat)
    requires IsDisk(g, d) && IsDisk(g, e) && IsHome(g, b)
    requires Listed(g, d[g.logStart]) == Listed(g, e[g.logStart]) == lh && Loggable(g, lh)
    requires forall i :: 0 <= i < |lh| ==> LogSlot(g, i) < g.diskBlocks && d[LogSlot(g, i)] == e[LogSlot(g, i)]
    requires b !in lh ==> d[b] == e[b]
    ensures Recovered(g, d, b) == Recovered(g, e, b)
  {
    hide Listed;
    var i := IndexOf(lh, b);
    if i < |lh| { assert d[LogSlot(g, i)] == e[LogSlot(g, i)]; }
  }

  ghost predicate SameLogical(g: Geometry, s: State, t: State)
    requires IsDisk(g, s.disk) && IsDisk(g, t.disk)
  {
    forall b :: IsHome(g, b) ==> Logical(g, t, b) == Logical(g, s, b)
  }

  ghost predicate SameDurable(g: Geometry, s: State, t: State)
    requires IsDisk(g, s.disk) && IsDisk(g, t.disk)
  {
    forall b :: IsHome(g, b) ==> Durable(g, t, b) == Durable(g, s, b)
  }

  // ---------- operations ----------

  lemma BeginStep(g: Geometry, s: State)
    requires Inv(g, s) && MayBegin(g, s) && !Recovery(s.phase)
    ensures Inv(g, s.(ops := s.ops + [{}]))
    ensures SameLogical(g, s, s.(ops := s.ops + [{}])) && SameDurable(g, s, s.(ops := s.ops + [{}]))
  {
  }

  lemma AppendLoggable(g: Geometry, s: State, b: nat)
    requires Loggable(g, s.lh) && IsHome(g, b) && !TooBig(g, s) && b !in s.lh
    ensures Loggable(g, s.lh + [b])
  {
    assert forall i :: 0 <= i < |s.lh| ==> s.lh[i] in s.lh;
  }

  lemma WriteMembers(s: State, op: nat, b: nat, data: Block)
    requires op < |s.ops|
    ensures Members(DoWrite(s, op, b, data).lh) == Members(s.lh) + {b}
  {
    MembersSnoc(s.lh, b);
    assert b in s.lh ==> b in Members(s.lh);
  }

  lemma WriteOps(g: Geometry, s: State, op: nat, b: nat, data: Block)
    requires Inv(g, s) && op < |s.ops|
    ensures OpsOk(g, DoWrite(s, op, b, data))
  {
    hide CacheOk, PhaseOk, IsDisk, Loggable;
    WriteMembers(s, op, b, data);
  }

  lemma WritePhase(g: Geometry, s: State, op: nat, b: nat, data: Block)
    requires Inv(g, s) && op < |s.ops|
    ensures s.phase == Idle && PhaseOk(g, DoWrite(s, op, b, data))
  {
    hide CacheOk, Loggable, Members;
    WriteMembers(s, op, b, data);
  }

  lemma WriteCache(g: Geometry, s: State, op: nat, b: nat, data: Block)
    requires Inv(g, s) && op < |s.ops| && IsHome(g, b) && |data| == g.words
    ensures CacheOk(g, DoWrite(s, op, b, data))
  {
    hide PhaseOk, OpsOk, Loggable, Listed;
  }

  lemma WriteInv(g: Geometry, s: State, op: nat, b: nat, data: Block)
    requires Inv(g, s) && op < |s.ops| && IsHome(g, b) && |data| == g.words
    requires !TooBig(g, s)
    ensures Inv(g, DoWrite(s, op, b, data))
  {
    hide CacheOk, PhaseOk, OpsOk, Distinct, Listed;
    WritePhase(g, s, op, b, data);
    WriteCache(g, s, op, b, data);
    WriteOps(g, s, op, b, data);
    if b !in s.lh { AppendLoggable(g, s, b); }
  }

  /** A write changes what readers see in that block, and nothing that survives a crash. */
  lemma WriteStep(g: Geometry, s: State, op: nat, b: nat, data: Block)
    requires Inv(g, s) && op < |s.ops| && IsHome(g, b) && |data| == g.words
    requires !TooBig(g, s)
    ensures var t := DoWrite(s, op, b, data);
      && Inv(g, t) && SameDurable(g, s, t)
      && forall x :: IsHome(g, x) ==> Logical(g, t, x) == if x == b then data else Logical(g, s, x)
  {
    WriteInv(g, s, op, b, data);
  }

  lemma EndStep(g: Geometry, s: State, op: nat)
    requires Inv(g, s) && op < |s.ops|
    ensures Inv(g, DoEnd(s, op)) && SameLogical(g, s, DoEnd(s, op)) && SameDurable(g, s, DoEnd(s, op))
    ensures !s.committing
  {
    hide Listed, Recovered, Loggable;
    assert s.phase == Idle;
    assert s.lh == [] ==> Members(s.lh) == {};
  }

  // ---------- the cache ----------

  lemma CacheStep(g: Geometry, s: State, cache: map<nat, Block>)
    requires Inv(g, s) && s.dirty <= cache.Keys
    requires forall b :: b in cache ==> b < |s.disk| && cache[b] == Current(s, b)
    ensures Inv(g, s.(cache := cache))
    ensures SameLogical(g, s, s.(cache := cache)) && SameDurable(g, s, s.(cache := cache))
  {
    var t := s.(cache := cache);
    forall b | 0 <= b < |s.disk| ensures Current(t, b) == Current(s, b) { }
    assert CacheOk(g, t);
  }

  // ---------- commit ----------

  /** Writing a block by itself keeps the cache in order. */
  lemma PutCache(g: Geometry, s: State, b: nat, data: Block)
    requires IsDisk(g, s.disk) && CacheOk(g, s) && b < |s.disk| && |data| == g.words
    requires b == g.logStart ==> IsHeader(g, data)
    ensures IsDisk(g, Put(s, b, data).disk) && CacheOk(g, Put(s, b, data))
    ensures forall x :: 0 <= x < |s.disk| ==> Current(Put(s, b, data), x) == if x == b then data else Current(s, x)
  {
  }

  lemma SlotInLog(g: Geometry, lh: seq<nat>, i: nat)
    requires Loggable(g, lh) && i < |lh|
    ensures InLog(g, LogSlot(g, i)) && LogSlot(g, i) < g.diskBlocks && LogSlot(g, i) != g.logStart
  {
  }

  lemma CurrentSize(g: Geometry, s: State, b: nat)
    requires IsDisk(g, s.disk) && CacheOk(g, s) && b < |s.disk|
    ensures |Current(s, b)| == g.words
  {
  }

  lemma LogOneInv(g: Geometry, s: State, i: nat)
    requires Inv(g, s) && s.phase == Logging(i)
    ensures IsHome(g, s.lh[i]) && LogSlot(g, i) < |s.disk| && Inv(g, LogOne(g, s, i))
  {
    hide Filled, Distinct, Installed;
    SlotInLog(g, s.lh, i);
    CurrentSize(g, s, s.lh[i]);
    PutCache(g, s, LogSlot(g, i), Current(s, s.lh[i]));
    var t := LogOne(g, s, i);
    assert t.dirty == s.dirty by {
      assert forall x :: x in Members(s.lh) ==> IsHome(g, x);
    }
    LogOneFilled(g, s, i);
  }

  lemma LogOneFilled(g: Geometry, s: State, i: nat)
    requires Loggable(g, s.lh) && i < |s.lh| && Filled(g, s, i) && LogSlot(g, i) < |s.disk| && s.lh[i] < |s.disk|
    ensures Filled(g, LogOne(g, s, i), i + 1)
  {
    var t := LogOne(g, s, i);
    forall j | 0 <= j < i + 1 ensures LogSlot(g, j) < |t.disk| && t.disk[LogSlot(g, j)] == Current(t, s.lh[j]) {
      SlotInLog(g, s.lh, i);
      assert IsHome(g, s.lh[j]);
    }
  }

  lemma LogOneStep(g: Geometry, s: State, i: nat)
    requires Inv(g, s) && s.phase == Logging(i)
    ensures IsHome(g, s.lh[i]) && LogSlot(g, i) < |s.disk|
    ensures Inv(g, LogOne(g, s, i)) && SameLogical(g, s, LogOne(g, s, i)) && SameDurable(g, s, LogOne(g, s, i))
  {
    LogOneInv(g, s, i);
    var t := LogOne(g, s, i);
    SlotInLog(g, s.lh, i);
    forall b | IsHome(g, b) ensures Durable(g, t, b) == Durable(g, s, b) {
      RecoveredUnlisted(g, s.disk, b);
      RecoveredUnlisted(g, t.disk, b);
    }
  }

  lemma HeadCurrent(g: Geometry, s: State)
    requires Inv(g, s)
    ensures Current(s, g.logStart) == s.disk[g.logStart] && g.logStart !in s.dirty
  {
    assert forall i :: 0 <= i < |s.lh| ==> IsHome(g, s.lh[i]);
    assert g.logStart !in s.dirty;
  }

  /** The header write of a commit: everything current becomes durable, all at once, with no
      operation under way. */
  lemma CommitPoint(g: Geometry, s: State)
    requires Inv(g, s) && s.phase == Heading
    ensures InRange(g, s)
    ensures var t := WriteHead(g, s, s.lh, Installing(0));
      && s.ops == [] && SameLogical(g, s, t) && IsDisk(g, t.disk)
      && forall b :: IsHome(g, b) ==> Durable(g, t, b) == Logical(g, s, b)
  {
    hide Recovered, Listed, WithHead;
    var t := WriteHead(g, s, s.lh, Installing(0));
    HeadCurrent(g, s);
    PutCache(g, s, g.logStart, WithHead(g, s.disk[g.logStart], s.lh));
    forall b | IsHome(g, b) ensures Recovered(g, t.disk, b) == Current(s, b) {
      if b in s.lh {
        var i := IndexOf(s.lh, b);
        RecoveredListed(g, t.disk, s.lh, i);
        SlotInLog(g, s.lh, i);
      } else {
        RecoveredUnlisted(g, t.disk, b);
        assert b !in s.dirty;
      }
    }
  }

  lemma CommitPointInv(g: Geometry, s: State)
    requires Inv(g, s) && s.phase == Heading
    ensures InRange(g, s) && Inv(g, WriteHead(g, s, s.lh, Installing(0)))
  {
    hide Filled, Installed, Distinct;
    HeadCurrent(g, s);
    PutCache(g, s, g.logStart, WithHead(g, s.disk[g.logStart], s.lh));
    assert s.lh[0..] == s.lh;
    HeadFilled(g, s);
  }

  /** The header write leaves the log slots alone. */
  lemma HeadFilled(g: Geometry, s: State)
    requires InRange(g, s) && Loggable(g, s.lh) && Filled(g, s, |s.lh|)
    ensures Filled(g, WriteHead(g, s, s.lh, Installing(0)), |s.lh|)
  {
    var t := WriteHead(g, s, s.lh, Installing(0));
    forall j | 0 <= j < |s.lh| ensures LogSlot(g, j) < |t.disk| && t.disk[LogSlot(g, j)] == Current(t, t.lh[j]) {
      SlotInLog(g, s.lh, j);
      assert IsHome(g, s.lh[j]) && s.disk[LogSlot(g, j)] == Current(s, s.lh[j]);
    }
  }

  // ---------- installing ----------

  /** Installing a listed block does not change what recovery would produce. */
  lemma InstallDurable(g: Geometry, s: State, i: nat, phase: Phase)
    requires IsDisk(g, s.disk) && Loggable(g, s.lh) && OnDisk(g, s) == s.lh && i < |s.lh|
    requires LogSlot(g, i) < |s.disk| && |Current(s, LogSlot(g, i))| == g.words
    ensures IsDisk(g, InstallOne(g, s, i, phase).disk) && OnDisk(g, InstallOne(g, s, i, phase)) == s.lh
    ensures SameDurable(g, s, InstallOne(g, s, i, phase))
  {
    var t := InstallOne(g, s, i, phase);
    assert IsHome(g, s.lh[i]);
    forall j | 0 <= j < |s.lh| ensures LogSlot(g, j) < g.diskBlocks && t.disk[LogSlot(g, j)] == s.disk[LogSlot(g, j)] {
      SlotInLog(g, s.lh, j);
    }
    forall b | IsHome(g, b) ensures Durable(g, t, b) == Durable(g, s, b) {
      RecoveredSame(g, s.disk, t.disk, s.lh, b);
    }
  }

  lemma LogCurrent(g: Geometry, s: State, i: nat)
    requires Inv(g, s) && i < |s.lh|
    ensures LogSlot(g, i) < |s.disk| && Current(s, LogSlot(g, i)) == s.disk[LogSlot(g, i)] && |s.disk[LogSlot(g, i)]| == g.words
  {
    SlotInLog(g, s.lh, i);
    assert forall j :: 0 <= j < |s.lh| ==> IsHome(g, s.lh[j]);
    assert LogSlot(g, i) !in s.dirty;
  }

  lemma MembersTail(lh: seq<nat>, i: nat)
    requires Distinct(lh) && i < |lh|
    ensures Members(lh[i..]) - {lh[i]} == Members(lh[i + 1..])
  {
    var a, b := lh[i..], lh[i + 1..];
    assert forall j :: 0 <= j < |b| ==> b[j] == a[j + 1] && a[j + 1] != lh[i];
    forall x | x in Members(a) && x != lh[i] ensures x in Members(b) {
      var j :| 0 <= j < |a| && a[j] == x;
      assert b[j - 1] == x;
    }
    forall x | x in Members(b) ensures x in Members(a) && x != lh[i] {
      var j :| 0 <= j < |b| && b[j] == x;
      assert a[j + 1] == x;
    }
  }

  ghost function Installing1(g: Geometry, s: State, i: nat): State
    requires i < |s.lh| && s.lh[i] < |s.disk| && LogSlot(g, i) < |s.disk|
  {
    var t := InstallOne(g, s, i, Installing(i + 1));
    if i + 1 == |s.lh| then t.(lh := [], phase := Clearing) else t
  }

  lemma InstallFilled(g: Geometry, s: State, i: nat)
    requires Inv(g, s) && s.phase == Installing(i)
    ensures LogSlot(g, i) < |s.disk|
    ensures Filled(g, InstallOne(g, s, i, Installing(i + 1)), |s.lh|)
    ensures forall b :: 0 <= b < |s.disk| ==> Current(InstallOne(g, s, i, Installing(i + 1)), b) == Current(s, b)
  {
    LogCurrent(g, s, i);
    var t := InstallOne(g, s, i, Installing(i + 1));
    PutCache(g, s, s.lh[i], s.disk[LogSlot(g, i)]);
    assert s.disk[LogSlot(g, i)] == Current(s, s.lh[i]);
    forall j | 0 <= j < |s.lh| ensures LogSlot(g, j) < |t.disk| && t.disk[LogSlot(g, j)] == Current(t, t.lh[j]) {
      SlotInLog(g, s.lh, j);
      assert IsHome(g, s.lh[i]);
      assert s.disk[LogSlot(g, j)] == Current(s, s.lh[j]);
    }
  }

  lemma InstallFacts(g: Geometry, s: State, i: nat)
    requires Inv(g, s) && s.phase == Installing(i)
    ensures LogSlot(g, i) < |s.disk| && s.lh[i] < |s.disk|
    ensures var t := InstallOne(g, s, i, Installing(i + 1));
      && IsDisk(g, t.disk) && CacheOk(g, t) && OnDisk(g, t) == s.lh && t.dirty == Members(s.lh[i + 1..])
      && t.lh == s.lh && t.ops == s.ops && t.committing == s.committing
  {
    LogCurrent(g, s, i);
    PutCache(g, s, s.lh[i], s.disk[LogSlot(g, i)]);
    InstallDurable(g, s, i, Installing(i + 1));
    MembersTail(s.lh, i);
  }

  lemma InstallMoreInv(g: Geometry, s: State, i: nat)
    requires Inv(g, s) && s.phase == Installing(i) && i + 1 < |s.lh|
    ensures LogSlot(g, i) < |s.disk| && s.lh[i] < |s.disk| && Inv(g, InstallOne(g, s, i, Installing(i + 1)))
  {
    hide Members, Loggable, Filled;
    InstallFacts(g, s, i);
    InstallFilled(g, s, i);
  }

  lemma InstallLastInv(g: Geometry, s: State, i: nat)
    requires Inv(g, s) && s.phase == Installing(i) && i + 1 == |s.lh|
    ensures LogSlot(g, i) < |s.disk| && s.lh[i] < |s.disk|
    ensures Inv(g, InstallOne(g, s, i, Installing(i + 1)).(lh := [], phase := Clearing))
  {
    InstallFacts(g, s, i);
    InstallFilled(g, s, i);
    var t := InstallOne(g, s, i, Installing(i + 1));
    assert s.lh[i + 1..] == [] && Members([]) == {};
    forall j | 0 <= j < |s.lh| ensures LogSlot(g, j) < |t.disk| && t.disk[s.lh[j]] == t.disk[LogSlot(g, j)] {
      SlotInLog(g, s.lh, j);
      assert t.disk[LogSlot(g, j)] == Current(t, t.lh[j]);
    }
  }

  lemma InstallInv(g: Geometry, s: State, i: nat)
    requires Inv(g, s) && s.phase == Installing(i)
    ensures LogSlot(g, i) < |s.disk| && s.lh[i] < |s.disk| && Inv(g, Installing1(g, s, i))
  {
    if i + 1 == |s.lh| { InstallLastInv(g, s, i); } else { InstallMoreInv(g, s, i); }
  }

  lemma InstallStep(g: Geometry, s: State, i: nat)
    requires Inv(g, s) && s.phase == Installing(i)
    ensures LogSlot(g, i) < |s.disk| && s.lh[i] < |s.disk|
    ensures var t := Installing1(g, s, i); Inv(g, t) && SameLogical(g, s, t) && SameDurable(g, s, t)
  {
    InstallInv(g, s, i);
    LogCurrent(g, s, i);
    InstallDurable(g, s, i, Installing(i + 1));
    InstallFilled(g, s, i);
  }

  // ---------- clearing the log ----------

  /** Once everything listed is installed, emptying the header changes nothing that survives. */
  lemma ClearDurable(g: Geometry, s: State, header: Block)
    requires IsDisk(g, s.disk) && Loggable(g, OnDisk(g, s)) && Installed(g, s, |OnDisk(g, s)|)
    requires IsHeader(g, header) && Listed(g, header) == []
    ensures IsDisk(g, s.disk[g.logStart := header])
    ensures forall b: nat :: IsHome(g, b) ==>
      Recovered(g, s.disk[g.logStart := header], b) == s.disk[b] == Recovered(g, s.disk, b)
  {
    hide Listed, Recovered;
    var e, hd := s.disk[g.logStart := header], OnDisk(g, s);
    forall b: nat | IsHome(g, b) ensures Recovered(g, e, b) == s.disk[b] == Recovered(g, s.disk, b) {
      RecoveredUnlisted(g, e, b);
      if b in hd {
        var i := IndexOf(hd, b);
        RecoveredListed(g, s.disk, hd, i);
        assert s.disk[hd[i]] == s.disk[LogSlot(g, i)];
      } else {
        RecoveredUnlisted(g, s.disk, b);
      }
    }
  }

  lemma ClearStep(g: Geometry, s: State)
    requires Inv(g, s) && (s.phase == Clearing || s.phase == Resetting)
    ensures InRange(g, s)
    ensures var t := WriteHead(g, s, [], if s.phase == Clearing then Done else Idle);
      Inv(g, t) && SameLogical(g, s, t) && SameDurable(g, s, t)
  {
    hide Recovered;
    HeadCurrent(g, s);
    var header := WithHead(g, s.disk[g.logStart], []);
    PutCache(g, s, g.logStart, header);
    ClearDurable(g, s, header);
    assert Members([]) == {};
    var t := WriteHead(g, s, [], if s.phase == Clearing then Done else Idle);
    assert t.disk == s.disk[g.logStart := header];
    assert Loggable(g, []);
    forall b: nat | IsHome(g, b) ensures Logical(g, t, b) == Logical(g, s, b) {
      assert Current(t, b) == Current(s, b) == s.disk[b];
    }
  }

  // ---------- crashes and recovery ----------

  lemma CrashStep(g: Geometry, s: State)
    requires Inv(g, s)
    ensures Inv(g, DoCrash(g, s)) && SameDurable(g, s, DoCrash(g, s))
    ensures forall b: nat :: IsHome(g, b) ==> Logical(g, DoCrash(g, s), b) == Durable(g, s, b)
  {
    hide Recovered;
    assert Members([]) == {} && Loggable(g, []);
  }

  ghost function Recovering1(g: Geometry, s: State, i: nat): State
    requires i < |s.lh| && s.lh[i] < |s.disk| && LogSlot(g, i) < |s.disk|
  {
    var t := InstallOne(g, s, i, Recovering(i + 1));
    if i + 1 == |s.lh| then t.(lh := [], phase := Resetting) else t
  }

  lemma RecoverFacts(g: Geometry, s: State, i: nat)
    requires Inv(g, s) && s.phase == Recovering(i)
    ensures LogSlot(g, i) < |s.disk| && s.lh[i] < |s.disk|
    ensures var t := InstallOne(g, s, i, Recovering(i + 1));
      && IsDisk(g, t.disk) && CacheOk(g, t) && OnDisk(g, t) == s.lh && t.dirty == {} && Installed(g, t, i + 1)
      && SameDurable(g, s, t)
  {
    hide Installed, Distinct, Recovered, OpsOk;
    LogCurrent(g, s, i);
    PutCache(g, s, s.lh[i], s.disk[LogSlot(g, i)]);
    InstallDurable(g, s, i, Recovering(i + 1));
    RecoverInstalled(g, s, InstallOne(g, s, i, Recovering(i + 1)), i);
  }

  /** Installing block `i` leaves the log slots, and the blocks installed before, alone. */
  lemma RecoverInstalled(g: Geometry, s: State, t: State, i: nat)
    requires IsDisk(g, s.disk) && IsDisk(g, t.disk) && Loggable(g, s.lh) && i < |s.lh| && LogSlot(g, i) < |s.disk|
    requires OnDisk(g, s) == OnDisk(g, t) == s.lh && Installed(g, s, i)
    requires s.lh[i] < |s.disk| && t.disk == s.disk[s.lh[i] := s.disk[LogSlot(g, i)]]
    ensures Installed(g, t, i + 1)
  {
    hide Listed;
    assert IsHome(g, s.lh[i]);
    forall j | 0 <= j < i + 1 ensures LogSlot(g, j) < |t.disk| && t.disk[s.lh[j]] == t.disk[LogSlot(g, j)] {
      SlotInLog(g, s.lh, j);
      assert j < i ==> s.disk[s.lh[j]] == s.disk[LogSlot(g, j)];
    }
  }

  lemma RecoverStep(g: Geometry, s: State, i: nat)
    requires Inv(g, s) && s.phase == Recovering(i)
    ensures LogSlot(g, i) < |s.disk| && s.lh[i] < |s.disk|
    ensures var t := Recovering1(g, s, i); Inv(g, t) && SameLogical(g, s, t) && SameDurable(g, s, t)
  {
    hide Recovered, Listed;
    RecoverFacts(g, s, i);
    assert Loggable(g, []);
  }

  // ---------- every step ----------

  /** The one block write that makes a group of operations durable. */
  predicate IsCommitPoint(s: State, step: Step) { step == Advance && s.phase == Heading }

  ghost function NextLogical(g: Geometry, s: State, step: Step, b: nat): Block
    requires IsDisk(g, s.disk) && b < g.diskBlocks
  {
    match step
    case Write(_, x, data) => if b == x then data else Logical(g, s, b)
    case Crash => Durable(g, s, b)
    case _ => Logical(g, s, b)
  }

  ghost predicate Refines(g: Geometry, s: State, step: Step, t: State)
    requires IsDisk(g, s.disk) && IsDisk(g, t.disk)
  {
    forall b :: IsHome(g, b) ==>
      && Logical(g, t, b) == NextLogical(g, s, step, b)
      && Durable(g, t, b) == if IsCommitPoint(s, step) then Logical(g, s, b) else Durable(g, s, b)
  }

  lemma AdvanceRefines(g: Geometry, s: State)
    requires Inv(g, s)
    ensures InRange(g, s) && DoAdvance(g, s) != Panic
    ensures DoAdvance(g, s).Ok? ==>
      var t := DoAdvance(g, s).next;
      Inv(g, t) && Refines(g, s, Advance, t) && (s.phase == Heading ==> s.ops == [])
  {
    hide Recovered, Listed, Members, CacheOk, Loggable, Installed, Filled, Logical, Durable, WithHead, Put;
    InvInRange(g, s);
    match s.phase
    case Idle =>
    case Logging(i) => LogOneStep(g, s, i);
    case Heading => CommitPoint(g, s); CommitPointInv(g, s);
    case Installing(i) => InstallStep(g, s, i);
    case Clearing => ClearStep(g, s);
    case Done => DoneInv(g, s);
    case Recovering(i) => RecoverStep(g, s, i);
    case Resetting => ClearStep(g, s);
  }

  lemma DoneInv(g: Geometry, s: State)
    requires Inv(g, s) && s.phase == Done
    ensures var t := s.(committing := false, phase := Idle); Inv(g, t) && SameLogical(g, s, t) && SameDurable(g, s, t)
  {
    assert Members([]) == {};
  }

  lemma ReadStep(g: Geometry, s: State, b: nat)
    requires Inv(g, s) && b < g.diskBlocks
    ensures var t := s.(cache := s.cache[b := Current(s, b)]); Inv(g, t) && SameLogical(g, s, t) && SameDurable(g, s, t)
  {
    CacheStep(g, s, s.cache[b := Current(s, b)]);
  }

  lemma EvictStep(g: Geometry, s: State, b: nat)
    requires Inv(g, s) && b in s.cache && b !in s.dirty
    ensures var t := s.(cache := s.cache - {b}); Inv(g, t) && SameLogical(g, s, t) && SameDurable(g, s, t)
  {
    CacheStep(g, s, s.cache - {b});
  }

  /** The refinement: every step keeps the invariant; readers see exactly the writes, and after a
      crash what was durable; what is durable changes only at a commit point, to what readers see,
      with no operation under way. */
  lemma NextRefines(g: Geometry, s: State, step: Step)
    requires Inv(g, s) && Next(g, s, step).Ok?
    ensures var t := Next(g, s, step).next;
      Inv(g, t) && Refines(g, s, step, t) && (IsCommitPoint(s, step) ==> s.ops == [])
  {
    hide Recovered, Listed, Members, CacheOk, Loggable, Installed, Filled, DoAdvance, PhaseOk;
    match step
    case Begin => BeginStep(g, s);
    case Write(op, b, data) => WriteStep(g, s, op, b, data);
    case End(op) => EndStep(g, s, op);
    case Read(b) => ReadStep(g, s, b);
    case Evict(b) => EvictStep(g, s, b);
    case Advance => AdvanceRefines(g, s);
    case Crash => CrashStep(g, s);
  }

  /** The only panic there is: the guard of `log_write` on an otherwise proper write. */
  lemma OnlyTooBigPanics(g: Geometry, s: State, step: Step)
    requires Inv(g, s)
    ensures Next(g, s, step) == Panic <==>
      && step.Write? && step.op < |s.ops| && IsHome(g, step.block) && |step.data| == g.words
      && TooBig(g, s)
  {
    InvInRange(g, s);
    match step
    case End(op) => if op < |s.ops| { EndStep(g, s, op); }
    case Advance => AdvanceRefines(g, s);
    case _ =>
  }
}
