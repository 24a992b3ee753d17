/**
The redo log of `log.c` over the buffer cache, as a state machine whose steps are single block
writes, cache fills and evictions, the calls of file system operations, and crashes.
*/
module Journal {
  import opened Base

  /** A disk block as words: the log header is read as such, data is not interpreted. */
  type Block = seq<nat>

  /** Sizes: the disk, the log region on it, the words of a block, `LOGSIZE` and `MAXOPBLOCKS`. */
  datatype Sizes = Sizes(diskBlocks: nat, logStart: nat, logBlocks: nat, words: nat, logSize: nat, maxOpBlocks: nat)

  /** The log lies on the disk, and its header fits in a block with room to spare. */
  type Geometry = g: Sizes |
      && g.logStart + g.logBlocks <= g.diskBlocks && 0 < g.logBlocks
      && g.logSize + 1 < g.words && 0 < g.maxOpBlocks
    witness Sizes(2000, 2, 30, 128, 30, 10)

  predicate InLog(g: Geometry, b: nat) { g.logStart <= b < g.logStart + g.logBlocks }

  /** A block of the file system proper. */
  predicate IsHome(g: Geometry, b: nat) { b < g.diskBlocks && !InLog(g, b) }

  /** A block that reads as a log header: its count is within `LOGSIZE`. */
  predicate IsHeader(g: Geometry, header: Block) { |header| == g.words && header[0] <= g.logSize }

  predicate IsDisk(g: Geometry, disk: seq<Block>) {
    && |disk| == g.diskBlocks && (forall b :: 0 <= b < |disk| ==> |disk[b]| == g.words)
    && IsHeader(g, disk[g.logStart])
  }

  /** The block numbers listed in a header block: a count and as many numbers. */
  function Listed(g: Geometry, header: Block): seq<nat>
    requires IsHeader(g, header)
  {
    header[1..1 + header[0]]
  }

  /** The header buffer after `write_head`: what lies beyond the count stays. */
  function WithHead(g: Geometry, header: Block, lh: seq<nat>): (r: Block)
    requires |header| == g.words && |lh| <= g.logSize
    ensures IsHeader(g, r) && Listed(g, r) == lh
  {
    [|lh|] + lh + header[1 + |lh|..]
  }

  predicate Loggable(g: Geometry, lh: seq<nat>) {
    && Distinct(lh) && |lh| <= g.logSize && |lh| < g.logBlocks
    && forall i :: 0 <= i < |lh| ==> IsHome(g, lh[i])
  }

  /** What a finished recovery would leave in home block `b`: the logged copy, if one is listed. */
  function Recovered(g: Geometry, disk: seq<Block>, b: nat): Block
    requires IsDisk(g, disk) && b < g.diskBlocks
  {
    var lh := Listed(g, disk[g.logStart]);
    var i := IndexOf(lh, b);
    if i < |lh| && g.logStart + 1 + i < g.diskBlocks then disk[g.logStart + 1 + i] else disk[b]
  }

  /** How far `commit` or `recover_from_log` has got. */
  datatype Phase =
    | Idle
    | Logging(i: nat)
    | Heading
    | Installing(i: nat)
    | Clearing
    | Done
    | Recovering(i: nat)
    | Resetting

  datatype State = State(disk: seq<Block>, cache: map<nat, Block>, dirty: set<nat>, lh: seq<nat>,
                         ops: seq<set<nat>>, committing: bool, phase: Phase)

  datatype Step =
    | Begin
    | Write(op: nat, block: nat, data: Block)
    | End(op: nat)
    | Read(block: nat)
    | Evict(block: nat)
    | Advance
    | Crash

  datatype Outcome = Ok(next: State) | Panic | Disabled

  /** The contents `bread` returns. */
  function Current(s: State, b: nat): Block
    requires b < |s.disk|
  {
    if b in s.cache then s.cache[b] else s.disk[b]
  }

  /** `bread`, copy into the buffer, `bwrite`. */
  function Put(s: State, b: nat, data: Block): State
    requires b < |s.disk|
  {
    s.(disk := s.disk[b := data], cache := s.cache[b := data], dirty := s.dirty - {b})
  }

  // ---------- the calls of an operation ----------

  predicate MayBegin(g: Geometry, s: State) {
    !s.committing && |s.lh| + (|s.ops| + 1) * g.maxOpBlocks <= g.logSize
  }

  /** The guard at the head of `log_write`. */
  predicate TooBig(g: Geometry, s: State) { |s.lh| >= g.logSize || |s.lh| >= g.logBlocks - 1 }

  /** A buffer is changed and logged; a block already in the log is absorbed. */
  function DoWrite(s: State, op: nat, b: nat, data: Block): State
    requires op < |s.ops|
  {
    s.(cache := s.cache[b := data], dirty := s.dirty + {b},
       lh := if b in s.lh then s.lh else s.lh + [b],
       ops := s.ops[op := s.ops[op] + {b}])
  }

  function DoEnd(s: State, op: nat): State
    requires op < |s.ops|
  {
    var s1 := s.(ops := s.ops[..op] + s.ops[op + 1..]);
    if s1.ops == [] then s1.(committing := true, phase := if s.lh == [] then Done else Logging(0)) else s1
  }

  // ---------- commit and recovery, one block write at a time ----------

  function LogSlot(g: Geometry, i: nat): nat { g.logStart + 1 + i }

  /** `write_log`, one round. */
  function LogOne(g: Geometry, s: State, i: nat): State
    requires i < |s.lh| && s.lh[i] < |s.disk| && LogSlot(g, i) < |s.disk|
  {
    Put(s, LogSlot(g, i), Current(s, s.lh[i])).(phase := if i + 1 == |s.lh| then Heading else Logging(i + 1))
  }

  function WriteHead(g: Geometry, s: State, lh: seq<nat>, phase: Phase): State
    requires IsDisk(g, s.disk) && |Current(s, g.logStart)| == g.words && |lh| <= g.logSize
  {
    Put(s, g.logStart, WithHead(g, Current(s, g.logStart), lh)).(phase := phase)
  }

  /** `install_trans`, one round. */
  function InstallOne(g: Geometry, s: State, i: nat, phase: Phase): State
    requires i < |s.lh| && s.lh[i] < |s.disk| && LogSlot(g, i) < |s.disk|
  {
    Put(s, s.lh[i], Current(s, LogSlot(g, i))).(phase := phase)
  }

  function DoCrash(g: Geometry, s: State): State
    requires IsDisk(g, s.disk)
  {
    var lh := Listed(g, s.disk[g.logStart]);
    if lh == [] then State(s.disk, map[], {}, [], [], false, Resetting)
    else State(s.disk, map[], {}, lh, [], false, Recovering(0))
  }

  /** What it takes for the next block write to be in range; part of `Inv`. */
  predicate InRange(g: Geometry, s: State) {
    && IsDisk(g, s.disk) && |Current(s, g.logStart)| == g.words && |s.lh| <= g.logSize
    && forall i :: 0 <= i < |s.lh| ==> s.lh[i] < |s.disk| && LogSlot(g, i) < |s.disk|
  }

  /** The committing or recovering process does its next block write. */
  function DoAdvance(g: Geometry, s: State): Outcome
    requires InRange(g, s)
  {
    match s.phase
    case Idle => Disabled
    case Logging(i) => if i < |s.lh| then Ok(LogOne(g, s, i)) else Panic
    case Heading => Ok(WriteHead(g, s, s.lh, Installing(0)))
    case Installing(i) =>
      if i >= |s.lh| then Panic
      else
        var s1 := InstallOne(g, s, i, Installing(i + 1));
        Ok(if i + 1 == |s.lh| then s1.(lh := [], phase := Clearing) else s1)
    case Clearing => Ok(WriteHead(g, s, [], Done))
    case Done => Ok(s.(committing := false, phase := Idle))
    case Recovering(i) =>
      if i >= |s.lh| then Panic
      else
        var s1 := InstallOne(g, s, i, Recovering(i + 1));
        Ok(if i + 1 == |s.lh| then s1.(lh := [], phase := Resetting) else s1)
    case Resetting => Ok(WriteHead(g, s, [], Idle))
  }

  predicate Recovery(p: Phase) { p.Recovering? || p.Resetting? }

  function Next(g: Geometry, s: State, step: Step): Outcome {
    if !InRange(g, s) then Panic
    else match step
      case Begin => if Recovery(s.phase) || !MayBegin(g, s) then Disabled else Ok(s.(ops := s.ops + [{}]))
      case Write(op, b, data) =>
        if op >= |s.ops| || !IsHome(g, b) || |data| != g.words then Disabled
        else if TooBig(g, s) then Panic
        else Ok(DoWrite(s, op, b, data))
      case End(op) => if op >= |s.ops| then Disabled else if s.committing then Panic else Ok(DoEnd(s, op))
      case Read(b) =>
        if b >= g.diskBlocks then Disabled else Ok(s.(cache := s.cache[b := Current(s, b)]))
      case Evict(b) => if b in s.cache && b !in s.dirty then Ok(s.(cache := s.cache - {b})) else Disabled
      case Advance => DoAdvance(g, s)
      case Crash => Ok(DoCrash(g, s))
  }

  /** A freshly made disk, with an empty log. */
  predicate FreshDisk(g: Geometry, disk: seq<Block>) { IsDisk(g, disk) && Listed(g, disk[g.logStart]) == [] }

  function Boot(g: Geometry, disk: seq<Block>): State
    requires FreshDisk(g, disk)
  {
    DoCrash(g, State(disk, map[], {}, [], [], false, Idle))
  }
}
