/**
A commit of the log run on the cache of `NBUF` buffers, while other processes hold some: it goes
through if and only if the logged blocks and the clean buffers that others hold are together fewer
than the buffers, and then leaves on the disk what readers saw.
*/
module BufferCommit {
  import opened Base
  import opened Journal
  import opened JournalProofs
  import opened JournalKernel
  import opened BufferCache

  /** The cache after some calls, or the panic of `bget`. */
  datatype Ran = Ran(c: Cache) | Panicked

  /** What `bget` cannot recycle. */
  ghost function BusyBufs(c: Cache): set<nat> { set i | 0 <= i < |c.bufs| && !Unused(c.bufs[i]) }

  /** The buffers that somebody holds and that are not dirty. */
  ghost function CleanHeld(c: Cache): set<nat> { set i | 0 <= i < |c.bufs| && 0 < c.bufs[i].refcnt && !c.bufs[i].dirty }

  /** Nobody else holds a block of the log: only the log reads those. */
  ghost predicate OutsideLog(g: Geometry, c: Cache) {
    forall i :: 0 <= i < |c.bufs| && 0 < c.bufs[i].refcnt ==> !(c.bufs[i].dev == ROOTDEV && InLog(g, c.bufs[i].blockno))
  }

  /** From `c` to `d` every buffer taken was given back, those of others stayed, and none became dirty. */
  ghost predicate GivenBack(c: Cache, d: Cache) {
    && |d.bufs| == |c.bufs|
    && forall i :: 0 <= i < |c.bufs| ==>
      && d.bufs[i].refcnt == c.bufs[i].refcnt && (d.bufs[i].dirty ==> c.bufs[i].dirty)
      && (0 < c.bufs[i].refcnt ==> d.bufs[i].dev == c.bufs[i].dev && d.bufs[i].blockno == c.bufs[i].blockno)
  }

  lemma GivenBackThen(c: Cache, d: Cache, e: Cache)
    requires GivenBack(c, d) && GivenBack(d, e)
    ensures GivenBack(c, e)
  {
  }

  lemma GivenBackBusy(g: Geometry, c: Cache, d: Cache)
    requires GivenBack(c, d)
    ensures |d.bufs| == |c.bufs| && |BusyBufs(d)| <= |BusyBufs(c)| && (OutsideLog(g, c) ==> OutsideLog(g, d))
  {
    CardSubset(BusyBufs(d), BusyBufs(c));
  }

  // ---------- the calls of a commit ----------

  /** The data of buffer `from` goes to buffer `to` and to the disk, and both are let go. */
  ghost function Copied(c: Cache, from: nat, to: nat): Cache
    requires Sound(c) && from < |c.bufs| && to < |c.bufs| && from != to && c.bufs[to].valid
    requires 0 < c.bufs[from].refcnt && 0 < c.bufs[to].refcnt
  {
    assert BufOk(c.bufs[to], c.disk);
    Release(Release(Store(c, to, c.bufs[from].data), from), to)
  }

  lemma BreadHolds(c: Cache, blockno: nat)
    requires Sound(c) && blockno < |c.disk| && Bread(c, blockno).Got?
    ensures var r := Bread(c, blockno);
      && Sound(r.c) && |r.c.bufs| == |c.bufs| && r.c.disk == c.disk && r.b < |c.bufs|
      && r.c.bufs[r.b].valid && r.c.bufs[r.b].blockno == blockno && r.c.bufs[r.b].refcnt == c.bufs[r.b].refcnt + 1
      && r.c.bufs[r.b].dev == ROOTDEV && (r.c.bufs[r.b].dirty ==> c.bufs[r.b].dirty)
      && (0 < c.bufs[r.b].refcnt ==> c.bufs[r.b].dev == ROOTDEV && c.bufs[r.b].blockno == blockno)
      && forall i :: 0 <= i < |c.bufs| && i != r.b ==> r.c.bufs[i] == c.bufs[i]
  {
    hide UniqueBlocks, Distinct, Slot;
    BreadOk(c, blockno);
    assert BufOk(Bread(c, blockno).c.bufs[Bread(c, blockno).b], c.disk);
  }

  /** One round of `write_log`, to the log, or of `install_trans`, from it. */
  ghost function CopyBlock(c: Cache, slot: nat, home: nat, toLog: bool): Ran
    requires Sound(c) && slot < |c.disk| && home < |c.disk| && slot != home
  {
    match Bread(c, slot)
    case NoBuffers => Panicked
    case Got(c1, a) =>
      BreadHolds(c, slot);
      match Bread(c1, home)
      case NoBuffers => Panicked
      case Got(c2, b) =>
        BreadHolds(c1, home);
        Ran(if toLog then Copied(c2, b, a) else Copied(c2, a, b))
  }

  /** The header block's buffer after `write_head` changed it. */
  function Headed(data: Block, lh: seq<nat>): Block {
    [|lh|] + lh + if |lh| < |data| then data[1 + |lh|..] else []
  }

  ghost function HeadBlock(g: Geometry, c: Cache, lh: seq<nat>): Ran
    requires Sound(c) && |c.disk| == g.diskBlocks
  {
    match Bread(c, g.logStart)
    case NoBuffers => Panicked
    case Got(c1, a) =>
      BreadHolds(c, g.logStart);
      Ran(Release(Store(c1, a, Headed(c1.bufs[a].data, lh)), a))
  }

  lemma CopiedOk(c: Cache, from: nat, to: nat)
    requires Sound(c) && from < |c.bufs| && to < |c.bufs| && from != to && c.bufs[to].valid
    requires 0 < c.bufs[from].refcnt && 0 < c.bufs[to].refcnt
    ensures var d := Copied(c, from, to);
      && Sound(d) && |d.disk| == |c.disk| && |d.bufs| == |c.bufs|
      && forall i :: 0 <= i < |c.bufs| ==>
        && d.bufs[i].refcnt == (if i == from || i == to then c.bufs[i].refcnt - 1 else c.bufs[i].refcnt)
        && d.bufs[i].dev == c.bufs[i].dev && d.bufs[i].blockno == c.bufs[i].blockno
        && (d.bufs[i].dirty ==> c.bufs[i].dirty)
  {
    hide UniqueBlocks, Distinct, Without;
    assert BufOk(c.bufs[to], c.disk);
    var c1 := Store(c, to, c.bufs[from].data);
    StoreOk(c, to, c.bufs[from].data);
    ReleaseOk(c1, from);
    ReleaseOk(Release(c1, from), to);
  }

  lemma CopiedRefines(c: Cache, s: State, from: nat, to: nat)
    requires Sound(c) && from < |c.bufs| && to < |c.bufs| && from != to && c.bufs[to].valid
    requires 0 < c.bufs[from].refcnt && 0 < c.bufs[to].refcnt && Matches(c, s)
    ensures c.bufs[to].blockno < |s.disk| && Matches(Copied(c, from, to), Put(s, c.bufs[to].blockno, c.bufs[from].data))
  {
    hide UniqueBlocks, Distinct, Without, Contents, Dirty;
    assert BufOk(c.bufs[to], c.disk);
    var data := c.bufs[from].data;
    var c1, t := Store(c, to, data), Put(s, c.bufs[to].blockno, data);
    StoreOk(c, to, data);
    StoreRefines(c, s, to, data);
    ReleaseOk(c1, from);
    ReleaseRefines(c1, t, from);
    ReleaseRefines(Release(c1, from), t, to);
  }

  // ---------- when a lookup fails ----------

  /** The lookup of a block that is in no busy buffer fails exactly if all buffers are busy. */
  lemma LookupFails(c: Cache, blockno: nat)
    requires Sound(c) && blockno < |c.disk|
    requires forall b :: 0 <= b < |c.bufs| && Holds(c.bufs[b], ROOTDEV, blockno) ==> Unused(c.bufs[b])
    ensures Bread(c, blockno) == NoBuffers <==> |c.bufs| <= |BusyBufs(c)|
  {
    NoBuffersExactly(c, ROOTDEV, blockno);
    if |c.bufs| <= |BusyBufs(c)| {
      forall b | 0 <= b < |c.bufs| ensures !Unused(c.bufs[b]) {
        if b !in BusyBufs(c) { Pigeonhole(BusyBufs(c) + {b}, |c.bufs|); }
      }
    } else if Bread(c, blockno) == NoBuffers {
      DistinctCard(c.order);
      CardSubset(Members(c.order), BusyBufs(c));
    }
  }

  lemma DirtyHome(g: Geometry, s: State, x: nat)
    requires Inv(g, s) && x in s.dirty
    ensures IsHome(g, x)
  {
  }

  /** No busy buffer holds a block of the log. */
  lemma LogNotBusy(g: Geometry, c: Cache, s: State, x: nat, b: nat)
    requires Between(g, c, s) && InLog(g, x) && b < |c.bufs| && Holds(c.bufs[b], ROOTDEV, x)
    ensures Unused(c.bufs[b])
  {
    hide InvFacts;
    if c.bufs[b].dirty {
      assert BufOk(c.bufs[b], c.disk);
      KeyIs(c, b);
      DirtyHome(g, s, x);
    }
  }

  /** While the log commits, the lookup of one of its blocks fails exactly if all buffers are busy. */
  lemma LogLookupFails(g: Geometry, c: Cache, s: State, x: nat)
    requires Between(g, c, s) && InLog(g, x) && x < |c.disk|
    ensures Bread(c, x) == NoBuffers <==> |c.bufs| <= |BusyBufs(c)|
  {
    hide InvFacts, Bread;
    forall b | 0 <= b < |c.bufs| && Holds(c.bufs[b], ROOTDEV, x) ensures Unused(c.bufs[b]) { LogNotBusy(g, c, s, x, b); }
    LookupFails(c, x);
  }

  /** A dirty block always has its buffer. */
  lemma DirtyFound(c: Cache, blockno: nat)
    requires Sound(c) && blockno < |c.disk| && blockno in Dirty(c)
    ensures Bread(c, blockno).Got?
  {
    var k := Slot(c.bufs, blockno);
    assert BufOk(c.bufs[k], c.disk);
    assert Holds(c.bufs[k], ROOTDEV, blockno);
    NoBuffersExactly(c, ROOTDEV, blockno);
  }

  /** A round of copying between a dirty home block and a block of the log. */
  lemma CopyFails(g: Geometry, c: Cache, s: State, slot: nat, home: nat, toLog: bool)
    requires Between(g, c, s) && InLog(g, slot) && slot < |c.disk| && home < |c.disk| && home in s.dirty && slot != home
    ensures CopyBlock(c, slot, home, toLog) == Panicked <==> |c.bufs| <= |BusyBufs(c)|
  {
    hide Bread, Dirty, Contents, Copied, UniqueBlocks, BufOk, Distinct, InvFacts, BusyBufs;
    LogLookupFails(g, c, s, slot);
    if Bread(c, slot).Got? {
      BreadHolds(c, slot);
      BreadData(c, slot);
      DirtyFound(Bread(c, slot).c, home);
    }
  }

  // ---------- what a round does, to the journal ----------

  /** Both states show readers the same home blocks. */
  ghost predicate SameView(g: Geometry, s: State, u: State) {
    |s.disk| == |u.disk| == g.diskBlocks && forall b: nat :: IsHome(g, b) ==> Current(u, b) == Current(s, b)
  }

  lemma ViewThen(g: Geometry, s: State, t: State, u: State)
    requires SameView(g, s, t) && SameView(g, t, u)
    ensures SameView(g, s, u)
  {
    forall b: nat | IsHome(g, b) ensures Current(u, b) == Current(s, b) {
      assert Current(t, b) == Current(s, b);
    }
  }

  lemma QuietStep(g: Geometry, s: State, step: Step, t: State)
    requires Inv(g, s) && Next(g, s, step) == Ok(t) && (step.Read? || step.Evict? || step == Advance)
    requires !Recovery(s.phase) && !Recovery(t.phase)
    ensures Inv(g, t) && SameView(g, s, t)
  {
    hide Next, Recovered;
    NextRefines(g, s, step);
    forall b: nat | IsHome(g, b) ensures Current(t, b) == Current(s, b) {
      assert Logical(g, t, b) == NextLogical(g, s, step, b);
    }
  }

  /** A lookup changes nothing that readers see. */
  lemma LookupQuiet(g: Geometry, c: Cache, s: State, blockno: nat) returns (u: State)
    requires Inv(g, s) && !Recovery(s.phase) && Sound(c) && Matches(c, s) && blockno < |c.disk| && Bread(c, blockno).Got?
    ensures Inv(g, u) && SameView(g, s, u) && u.phase == s.phase && u.lh == s.lh && Matches(Bread(c, blockno).c, u)
  {
    hide Bread, Matches, Sound, InvFacts;
    InvInRange(g, s);
    var t;
    t, u := BreadRefines(g, c, s, blockno);
    if t != s {
      var x :| x !in s.dirty && Next(g, s, Evict(x)) == Ok(t);
      QuietStep(g, s, Evict(x), t);
    }
    QuietStep(g, t, Read(blockno), u);
  }

  /** The buffers of a copy round, once both are held. */
  lemma TwoLookups(g: Geometry, c: Cache, s: State, x: nat, y: nat) returns (u: State)
    requires Inv(g, s) && !Recovery(s.phase) && Sound(c) && Matches(c, s)
    requires x < |c.disk| && y < |c.disk| && x != y && Bread(c, x).Got?
    requires Sound(Bread(c, x).c) && |Bread(c, x).c.disk| == |c.disk| && Bread(Bread(c, x).c, y).Got?
    ensures Inv(g, u) && SameView(g, s, u) && u.phase == s.phase && u.lh == s.lh
    ensures var c1, a := Bread(c, x).c, Bread(c, x).b;
      var c2, b := Bread(c1, y).c, Bread(c1, y).b;
      Matches(c2, u) && TwoHeld(c2, u, a, b, x, y)
  {
    hide Bread, Matches, InvFacts, UniqueBlocks, BufOk, Distinct;
    var t := LookupQuiet(g, c, s, x);
    BreadHolds(c, x);
    u := LookupQuiet(g, Bread(c, x).c, t, y);
    BreadHolds(Bread(c, x).c, y);
    var c1, a := Bread(c, x).c, Bread(c, x).b;
    var c2, b := Bread(c1, y).c, Bread(c1, y).b;
    HeldData(c2, u, a);
    HeldData(c2, u, b);
  }

  /** Buffers `a` and `b`, of blocks `x` and `y`, are held, and they hold what readers see. */
  ghost predicate TwoHeld(c: Cache, s: State, a: nat, b: nat, x: nat, y: nat) {
    && Sound(c) && a < |c.bufs| && b < |c.bufs| && a != b && x < |s.disk| && y < |s.disk|
    && c.bufs[a].valid && c.bufs[a].blockno == x && c.bufs[a].data == Current(s, x)
    && c.bufs[b].valid && c.bufs[b].blockno == y && c.bufs[b].data == Current(s, y)
    && 0 < c.bufs[a].refcnt && 0 < c.bufs[b].refcnt
  }

  lemma HeldData(c: Cache, s: State, a: nat)
    requires Sound(c) && Matches(c, s) && a < |c.bufs| && c.bufs[a].valid
    ensures c.bufs[a].blockno < |s.disk| && c.bufs[a].data == Current(s, c.bufs[a].blockno)
  {
    assert BufOk(c.bufs[a], c.disk);
    KeyIs(c, a);
  }

  lemma CopyRefines(c: Cache, s: State, from: nat, to: nat, x: nat, y: nat)
    requires TwoHeld(c, s, from, to, x, y) && Matches(c, s)
    ensures var d := Copied(c, from, to);
      Sound(d) && |d.bufs| == |c.bufs| && Matches(d, Put(s, y, Current(s, x)))
  {
    hide Copied, Matches;
    CopiedOk(c, from, to);
    CopiedRefines(c, s, from, to);
  }

  /** Between two calls of a commit: the cache is the journal's, whatever buffers others hold. */
  ghost predicate Between(g: Geometry, c: Cache, s: State) {
    Inv(g, s) && !Recovery(s.phase) && Sound(c) && OutsideLog(g, c) && Matches(c, s) && |c.disk| == g.diskBlocks
  }

  /** A copy round is one block write of the journal. */
  lemma CopyQuiet(g: Geometry, c: Cache, s: State, slot: nat, home: nat, toLog: bool) returns (t: State, u: State)
    requires Between(g, c, s) && slot < |c.disk| && home < |c.disk| && slot != home
    requires CopyBlock(c, slot, home, toLog).Ran?
    ensures Inv(g, t) && SameView(g, s, t) && t.phase == s.phase && t.lh == s.lh
    ensures u == if toLog then Put(t, slot, Current(t, home)) else Put(t, home, Current(t, slot))
    ensures var d := CopyBlock(c, slot, home, toLog).c;
      Sound(d) && |d.bufs| == |c.bufs| && Matches(d, u)
  {
    hide Bread, Matches, InvFacts, UniqueBlocks, BufOk, Distinct, Copied;
    BreadHolds(c, slot);
    t := TwoLookups(g, c, s, slot, home);
    var c1, a := Bread(c, slot).c, Bread(c, slot).b;
    var c2, b := Bread(c1, home).c, Bread(c1, home).b;
    BreadHolds(c1, home);
    u := if toLog then Put(t, slot, Current(t, home)) else Put(t, home, Current(t, slot));
    if toLog {
      CopyRefines(c2, t, b, a, home, slot);
    } else {
      CopyRefines(c2, t, a, b, slot, home);
    }
  }

  // ---------- the loops of a commit ----------

  lemma CopyBlockOk(c: Cache, slot: nat, home: nat, toLog: bool)
    requires Sound(c) && slot < |c.disk| && home < |c.disk| && slot != home && CopyBlock(c, slot, home, toLog).Ran?
    ensures var d := CopyBlock(c, slot, home, toLog).c; Sound(d) && |d.disk| == |c.disk| && GivenBack(c, d)
  {
    hide Bread, UniqueBlocks, BufOk, Distinct, Copied;
    BreadHolds(c, slot);
    var c1, a := Bread(c, slot).c, Bread(c, slot).b;
    BreadHolds(c1, home);
    var c2, b := Bread(c1, home).c, Bread(c1, home).b;
    if toLog { CopiedOk(c2, b, a); } else { CopiedOk(c2, a, b); }
  }

  /** The rounds of `write_log` or `install_trans` from round `i`. */
  ghost function CopyAll(g: Geometry, c: Cache, lh: seq<nat>, toLog: bool, i: nat): (r: Ran)
    requires Sound(c) && |c.disk| == g.diskBlocks && Loggable(g, lh) && i <= |lh|
    ensures r.Ran? ==> Sound(r.c) && |r.c.disk| == g.diskBlocks && |r.c.bufs| == |c.bufs|
    decreases |lh| - i
  {
    if i == |lh| then Ran(c)
    else
      match CopyBlock(c, LogSlot(g, i), lh[i], toLog)
      case Panicked => Panicked
      case Ran(d) =>
        CopyBlockOk(c, LogSlot(g, i), lh[i], toLog);
        CopyAll(g, d, lh, toLog, i + 1)
  }

  /** Where the journal stands before round `i`. */
  ghost predicate AtRound(s: State, lh: seq<nat>, toLog: bool, i: nat) {
    && s.phase == (if toLog then if i < |lh| then Logging(i) else Heading else InstallPhase(false, i, |lh|))
    && s.lh == if !toLog && i == |lh| then [] else lh
  }

  /** The log of a commit: its home blocks are dirty, its slots are not. */
  lemma RoundTargets(g: Geometry, s: State, lh: seq<nat>, toLog: bool, i: nat)
    requires Inv(g, s) && AtRound(s, lh, toLog, i) && i < |lh|
    ensures Loggable(g, lh) && lh[i] in s.dirty && InLog(g, LogSlot(g, i))
  {
    var rest := if toLog then lh else lh[i..];
    assert s.dirty == Members(rest) && lh[i] == if toLog then rest[i] else rest[0];
  }

  /** While some buffer is not busy, round `i` goes through and is the journal's next block write. */
  lemma RoundRuns(g: Geometry, c: Cache, s: State, lh: seq<nat>, toLog: bool, i: nat) returns (u: State)
    requires Between(g, c, s) && Loggable(g, lh) && AtRound(s, lh, toLog, i) && i < |lh| && |BusyBufs(c)| < |c.bufs|
    ensures CopyBlock(c, LogSlot(g, i), lh[i], toLog).Ran?
    ensures var d := CopyBlock(c, LogSlot(g, i), lh[i], toLog).c;
      Between(g, d, u) && SameView(g, s, u) && AtRound(u, lh, toLog, i + 1) && GivenBack(c, d)
  {
    hide Sound, CopyBlock, InvFacts, Distinct, Dirty, Contents, BusyBufs, GivenBack, OutsideLog;
    RoundTargets(g, s, lh, toLog, i);
    CopyFails(g, c, s, LogSlot(g, i), lh[i], toLog);
    CopyBlockOk(c, LogSlot(g, i), lh[i], toLog);
    GivenBackBusy(g, c, CopyBlock(c, LogSlot(g, i), lh[i], toLog).c);
    var t, w := CopyQuiet(g, c, s, LogSlot(g, i), lh[i], toLog);
    if toLog {
      LogNext(g, t, i);
      u := Wrote(t, LogSlot(g, i), Current(t, lh[i]), if i + 1 < |lh| then Logging(i + 1) else Heading);
    } else {
      InstallNext(g, t, false, i);
      u := Wrote(t, lh[i], Current(t, LogSlot(g, i)), InstallPhase(false, i + 1, |lh|));
    }
    QuietStep(g, t, Advance, u);
  }

  lemma {:induction false} RoundsRun(g: Geometry, c: Cache, s: State, lh: seq<nat>, toLog: bool, i: nat) returns (u: State)
    requires Between(g, c, s) && Loggable(g, lh) && AtRound(s, lh, toLog, i) && i <= |lh| && |BusyBufs(c)| < |c.bufs|
    ensures CopyAll(g, c, lh, toLog, i).Ran?
    ensures var d := CopyAll(g, c, lh, toLog, i).c;
      Between(g, d, u) && SameView(g, s, u) && AtRound(u, lh, toLog, |lh|) && GivenBack(c, d)
    decreases |lh| - i
  {
    hide Sound, CopyBlock, InvFacts, Distinct, Contents, Dirty, BusyBufs, OutsideLog;
    if i == |lh| {
      u := s;
    } else {
      var t := RoundRuns(g, c, s, lh, toLog, i);
      var d := CopyBlock(c, LogSlot(g, i), lh[i], toLog).c;
      GivenBackBusy(g, c, d);
      u := RoundsRun(g, d, t, lh, toLog, i + 1);
      ViewThen(g, s, t, u);
      GivenBackThen(c, d, CopyAll(g, c, lh, toLog, i).c);
    }
  }

  lemma HeadOk(g: Geometry, c: Cache, lh: seq<nat>)
    requires Sound(c) && |c.disk| == g.diskBlocks && HeadBlock(g, c, lh).Ran?
    ensures var d := HeadBlock(g, c, lh).c; Sound(d) && |d.disk| == g.diskBlocks && GivenBack(c, d)
  {
    hide Bread, UniqueBlocks, Distinct;
    BreadHolds(c, g.logStart);
    var c1, a := Bread(c, g.logStart).c, Bread(c, g.logStart).b;
    assert BufOk(c1.bufs[a], c1.disk);
    var data := Headed(c1.bufs[a].data, lh);
    StoreOk(c1, a, data);
    ReleaseOk(Store(c1, a, data), a);
  }

  /** `write_head` goes through while some buffer is not busy, and is the journal's next block write. */
  lemma HeadRuns(g: Geometry, c: Cache, s: State) returns (u: State)
    requires Between(g, c, s) && (s.phase == Heading || s.phase == Clearing) && |BusyBufs(c)| < |c.bufs|
    ensures HeadBlock(g, c, s.lh).Ran?
    ensures var d := HeadBlock(g, c, s.lh).c;
      Between(g, d, u) && SameView(g, s, u) && u.phase == AfterHead(s.phase) && u.lh == s.lh && GivenBack(c, d)
  {
    hide UniqueBlocks, Distinct, Bread, Dirty, Contents, InvFacts, BusyBufs, GivenBack, OutsideLog;
    LogLookupFails(g, c, s, g.logStart);
    HeadOk(g, c, s.lh);
    GivenBackBusy(g, c, HeadBlock(g, c, s.lh).c);
    BreadHolds(c, g.logStart);
    var c1, a := Bread(c, g.logStart).c, Bread(c, g.logStart).b;
    assert BufOk(c1.bufs[a], c1.disk);
    var t := LookupQuiet(g, c, s, g.logStart);
    HeldData(c1, t, a);
    HeadNext(g, t);
    InvInRange(g, t);
    var data := Headed(c1.bufs[a].data, s.lh);
    assert data == WithHead(g, Current(t, g.logStart), s.lh);
    u := Wrote(t, g.logStart, data, AfterHead(t.phase));
    StoreRefines(c1, t, a, data);
    StoreOk(c1, a, data);
    ReleaseRefines(Store(c1, a, data), Put(t, g.logStart, data), a);
    QuietStep(g, t, Advance, u);
  }

  // ---------- the commit ----------

  /** `commit` of a log of blocks `lh`. */
  ghost function Commit(g: Geometry, c: Cache, lh: seq<nat>): Ran
    requires Sound(c) && |c.disk| == g.diskBlocks && Loggable(g, lh)
  {
    if lh == [] then Ran(c)
    else
      match CopyAll(g, c, lh, true, 0)
      case Panicked => Panicked
      case Ran(c1) =>
        match HeadBlock(g, c1, lh)
        case Panicked => Panicked
        case Ran(c2) =>
          HeadOk(g, c1, lh);
          match CopyAll(g, c2, lh, false, 0)
          case Panicked => Panicked
          case Ran(c3) => HeadBlock(g, c3, [])
  }

  /** With all buffers busy `write_log` finds none for its first block. */
  lemma CommitPanics(g: Geometry, c: Cache, s: State)
    requires Between(g, c, s) && s.phase == Logging(0) && 0 < |s.lh| && |c.bufs| <= |BusyBufs(c)| && Loggable(g, s.lh)
    ensures Commit(g, c, s.lh) == Panicked
  {
    hide Sound, InvFacts, CopyBlock, Dirty, Contents, BusyBufs, OutsideLog;
    RoundTargets(g, s, s.lh, true, 0);
    CopyFails(g, c, s, LogSlot(g, 0), s.lh[0], true);
  }

  /** With one that is not, the commit goes through. */
  lemma CommitRuns(g: Geometry, c: Cache, s: State) returns (u: State)
    requires Between(g, c, s) && s.phase == Logging(0) && 0 < |s.lh| && |BusyBufs(c)| < |c.bufs| && Loggable(g, s.lh)
    ensures Commit(g, c, s.lh).Ran?
    ensures var d := Commit(g, c, s.lh).c; Between(g, d, u) && SameView(g, s, u) && u.phase == Done && GivenBack(c, d)
  {
    hide Sound, InvFacts, CopyAll, HeadBlock, Matches, Loggable, BusyBufs, GivenBack, OutsideLog, SameView;
    var lh := s.lh;
    var s1 := RoundsRun(g, c, s, lh, true, 0);
    var c1 := CopyAll(g, c, lh, true, 0).c;
    GivenBackBusy(g, c, c1);
    var s2 := HeadRuns(g, c1, s1);
    var c2 := HeadBlock(g, c1, lh).c;
    HeadOk(g, c1, lh);
    GivenBackBusy(g, c1, c2);
    var s3 := RoundsRun(g, c2, s2, lh, false, 0);
    var c3 := CopyAll(g, c2, lh, false, 0).c;
    GivenBackBusy(g, c2, c3);
    u := HeadRuns(g, c3, s3);
    ViewThen(g, s, s1, s2);
    ViewThen(g, s, s2, s3);
    ViewThen(g, s, s3, u);
    GivenBackThen(c, c1, c2);
    GivenBackThen(c, c2, c3);
    GivenBackThen(c, c3, HeadBlock(g, c3, []).c);
  }

  // ---------- how many buffers are busy ----------

  lemma {:induction false} SlotsExact(c: Cache, blocks: set<nat>)
    requires forall x :: x in blocks ==> Slot(c.bufs, x) < |c.bufs|
    ensures |Slots(c, blocks)| == |blocks|
  {
    if x :| x in blocks {
      var rest := blocks - {x};
      SlotsExact(c, rest);
      assert Slots(c, blocks) == Slots(c, rest) + {Slot(c.bufs, x)};
      assert Slot(c.bufs, x) !in Slots(c, rest);
    } else {
      assert Slots(c, blocks) == {};
    }
  }

  /** Busy are the buffers of the logged blocks, and those that others hold and that are not dirty. */
  lemma BusyCount(g: Geometry, c: Cache, s: State)
    requires Between(g, c, s) && s.phase == Logging(0)
    ensures |BusyBufs(c)| == |s.lh| + |CleanHeld(c)|
  {
    hide InvFacts, UniqueBlocks, Distinct, Ordered, Slot;
    var dirty := Slots(c, Dirty(c));
    LogListed(g, s);
    DistinctCard(s.lh);
    SlotsExact(c, Dirty(c));
    forall i | 0 <= i < |c.bufs| ensures i in dirty <==> c.bufs[i].dirty { DirtySlot(c, i); }
    assert BusyBufs(c) == dirty + CleanHeld(c);
    assert dirty !! CleanHeld(c);
  }

  lemma DirtySlot(c: Cache, i: nat)
    requires Sound(c) && i < |c.bufs|
    ensures i in Slots(c, Dirty(c)) <==> c.bufs[i].dirty
  {
    if c.bufs[i].dirty {
      assert BufOk(c.bufs[i], c.disk);
      SlotIs(c, i);
      KeyIs(c, i);
    }
  }

  /** The commit of the log goes through if and only if the logged blocks, and the buffers that others
      hold and that are not dirty, are together fewer than the buffers. Every home block on the disk
      then is what readers saw before, nothing is dirty, others hold what they held, nobody else holds
      anything, and the log on disk is empty. */
  lemma CommitExactly(g: Geometry, c: Cache, s: State)
    requires Between(g, c, s) && s.phase == Logging(0)
    ensures Loggable(g, s.lh) && (Commit(g, c, s.lh).Ran? <==> |s.lh| + |CleanHeld(c)| < |c.bufs|)
    ensures Commit(g, c, s.lh).Ran? ==>
      var d := Commit(g, c, s.lh).c;
      && Sound(d) && GivenBack(c, d) && Dirty(d) == {} && FreshDisk(g, d.disk)
      && forall b: nat :: IsHome(g, b) ==> d.disk[b] == Current(s, b)
  {
    hide Commit, InvFacts, Sound, Matches, Dirty, BusyBufs, CleanHeld, GivenBack, OutsideLog;
    LogListed(g, s);
    BusyCount(g, c, s);
    if |BusyBufs(c)| < |c.bufs| {
      var u := CommitRuns(g, c, s);
      Settled(g, Commit(g, c, s.lh).c, s, u);
    } else {
      CommitPanics(g, c, s);
    }
  }

  lemma LogListed(g: Geometry, s: State)
    requires Inv(g, s) && s.phase == Logging(0)
    ensures Loggable(g, s.lh) && s.lh != [] && s.dirty == Members(s.lh)
  {
  }

  lemma Settled(g: Geometry, d: Cache, s: State, u: State)
    requires Between(g, d, u) && SameView(g, s, u) && u.phase == Done
    ensures Dirty(d) == {} && FreshDisk(g, d.disk) && forall b: nat :: IsHome(g, b) ==> d.disk[b] == Current(s, b)
  {
    forall b: nat | IsHome(g, b) ensures d.disk[b] == Current(s, b) {
      assert Current(u, b) == Current(s, b);
    }
  }
}
