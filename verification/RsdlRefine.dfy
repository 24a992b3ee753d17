/**
What connects the loops of `scheduler` with the folds of `Rsdl`: free slots for every process on
the move, and the tables the loops go through.
*/
module RsdlRefine {
  import opened Base
  import opened Rsdl
  import opened RsdlInvariant

  predicate NoneOpen(c: Config, ls: seq<Level>, start: int, end: nat) {
    forall j :: 0 <= start <= j < end && j < |ls| ==> !Open(c, ls[j])
  }

  /** No queue of a set is full. */
  ghost predicate Roomy(c: Config, ls: seq<Level>) {
    forall k :: 0 <= k < |ls| ==> |ls[k].queue| < c.nproc
  }

  /** `find_available_queue` has somewhere to put a process with default level `d`. */
  ghost predicate HasPlace(c: Config, t: Table, floor: nat, d: nat) {
    && |t.active| == |t.expired| == c.levels && d < c.levels && Roomy(c, t.active)
    && (NextWithQuantum(t.active, Max(floor, d)).Some? || Open(c, t.expired[d]))
  }

  /** A queue that lacks a process has a free slot. */
  lemma RoomFor(c: Config, q: seq<nat>, p: nat)
    requires Slots(q, c.nproc) && p < c.nproc && p !in q && forall x :: multiset(q)[x] <= 1
    ensures |q| < c.nproc
  {
    CountedDistinct(q);
    DistinctCard(q);
    var s := Members(q);
    Pigeonhole(s + {p}, c.nproc);
    assert |s + {p}| == |s| + 1;
  }

  lemma RoomIn(c: Config, t: Table, missing: seq<nat>, ls: seq<Level>, k: nat)
    requires Core(c, t, missing) && missing != [] && (ls == t.active || ls == t.expired) && k < |ls|
    ensures |ls[k].queue| < c.nproc
  {
    hide ActiveOk, ExpiredOk;
    var p, q := missing[0], ls[k].queue;
    forall x ensures multiset(q)[x] <= 1 && (x == p ==> multiset(q)[x] == 0) {
      if x < 0 { MemberCount(q, x); } else {
        CountAtLeast(ls, k, x);
        assert Count(t.active, x) + Count(t.expired, x) + multiset(missing)[x] <= 1;
        MemberCount(missing, p);
      }
    }
    MemberCount(q, p);
    RoomFor(c, q, p);
  }

  /** As long as a process is missing from the queues, none of them is full. */
  lemma Room(c: Config, t: Table, missing: seq<nat>)
    requires Core(c, t, missing) && missing != []
    ensures Roomy(c, t.active) && Roomy(c, t.expired)
  {
    forall k | 0 <= k < c.levels ensures |t.active[k].queue| < c.nproc && |t.expired[k].queue| < c.nproc {
      RoomIn(c, t, missing, t.active, k);
      RoomIn(c, t, missing, t.expired, k);
    }
  }

  lemma PlaceFor(c: Config, t: Table, missing: seq<nat>, floor: nat, d: nat)
    requires Core(c, t, missing) && missing != [] && d < c.levels
    ensures HasPlace(c, t, floor, d)
  {
    Room(c, t, missing);
    assert ExpiredOk(c, t.procs, t.expired[d], d);
  }

  /** With no queue full, an open level is one with quantum. */
  lemma FoundActive(c: Config, ls: seq<Level>, floor: nat, k: nat)
    requires Roomy(c, ls) && floor <= k < |ls| && Open(c, ls[k]) && NoneOpen(c, ls, floor, k)
    ensures NextWithQuantum(ls, floor) == Some(k)
  {
    forall j | floor <= j < k ensures ls[j].ticksLeft <= 0 { assert !Open(c, ls[j]); }
  }

  lemma FoundNone(c: Config, ls: seq<Level>, floor: nat)
    requires Roomy(c, ls) && NoneOpen(c, ls, floor, |ls|)
    ensures NextWithQuantum(ls, floor) == None
  {
    forall j | floor <= j < |ls| ensures ls[j].ticksLeft <= 0 { assert !Open(c, ls[j]); }
  }

  // ---------- folds, one step at a time ----------

  lemma {:induction false} PlaceAllSnoc(c: Config, t: Table, ps: seq<nat>, x: nat, floor: nat)
    requires Sized(c, t) && Slots(ps, c.nproc) && x < c.nproc
    ensures Slots(ps + [x], c.nproc) && Sized(c, PlaceAll(c, t, ps, floor))
    ensures PlaceAll(c, t, ps + [x], floor) == Place(c, PlaceAll(c, t, ps, floor), x, floor)
    decreases |ps|
  {
    if ps == [] {
      assert [] + [x] == [x];
    } else {
      assert (ps + [x])[1..] == ps[1..] + [x];
      assert Sized(c, Place(c, t, ps[0], floor));
      PlaceAllSnoc(c, Place(c, t, ps[0], floor), ps[1..], x, floor);
    }
  }

  lemma {:induction false} RefillSnoc(c: Config, procs: seq<Proc>, ps: seq<nat>, x: nat)
    requires Slots(ps, |procs|) && x < |procs|
    ensures Slots(ps + [x], |procs|)
    ensures Refill(c, procs, ps + [x]) ==
      Refill(c, procs, ps)[x := Refill(c, procs, ps)[x].(ticksLeft := c.procQuantum)]
    decreases |ps|
  {
    if ps == [] {
      assert [] + [x] == [x];
    } else {
      assert (ps + [x])[1..] == ps[1..] + [x];
      RefillSnoc(c, procs[ps[0] := procs[ps[0]].(ticksLeft := c.procQuantum)], ps[1..], x);
    }
  }

  /** Half-way through a fold the rest is still missing. */
  lemma {:induction false} PlaceSomeCore(c: Config, t: Table, a: seq<nat>, b: seq<nat>, floor: nat)
    requires Core(c, t, a + b) && Slots(a, c.nproc)
    requires forall i :: 0 <= i < |a| ==> t.procs[a[i]].ticksLeft == c.procQuantum
    ensures Core(c, PlaceAll(c, t, a, floor), b)
    decreases |a|
  {
    if a == [] {
      assert [] + b == b;
    } else {
      assert a + b == [a[0]] + (a[1..] + b);
      PlaceCore(c, t, a[0], a[1..] + b, floor);
      PlaceSomeCore(c, Place(c, t, a[0], floor), a[1..], b, floor);
    }
  }

  lemma {:induction false} WithoutSnoc(q: seq<nat>, x: nat, p: nat)
    ensures Without(q + [x], p) == if x == p && p !in q then q else Without(q, p) + [x]
  {
    if q == [] {
      assert [] + [x] == [x];
    } else {
      assert (q + [x])[1..] == q[1..] + [x];
      if q[0] == p {
      } else {
        WithoutSnoc(q[1..], x, p);
        assert q == [q[0]] + q[1..];
      }
    }
  }

  lemma {:induction false} WithoutPrefix(q: seq<nat>, i: nat, p: nat)
    requires i <= |q|
    ensures Without(q[..i], p) <= Without(q, p) && |Without(q[..i], p)| <= i
  {
    if i == 0 {
    } else {
      assert q[..i][1..] == q[1..][..i - 1];
      if q[0] == p {
      } else {
        WithoutPrefix(q[1..], i - 1, p);
      }
    }
  }

  // ---------- the migration loop ----------

  /** What has been placed when the first `i` processes of the depleted level have been handled. */
  ghost function Placed(c: Config, t: Table, p: nat, k: nat, i: nat): Table
    requires Returning(c, t, p, k) && i <= |t.active[k].queue|
  {
    var q := t.active[k].queue;
    WithoutSlots(q[..i], p, c.nproc);
    RefillSized(c, t, q);
    PlaceAll(c, Left(c, t, k, [], q), Without(q[..i], p), k + 1)
  }

  /** The table after `i` rounds of the migration loop. */
  ghost predicate Migrating(c: Config, t: Table, u: Table, p: nat, k: nat, i: nat)
    requires Returning(c, t, p, k) && i <= |t.active[k].queue|
  {
    Whole(MigratingFacts(c, t, u, p, k, i))
  }

  ghost predicate MigratingFacts(c: Config, t: Table, u: Table, p: nat, k: nat, i: nat)
    requires Returning(c, t, p, k) && i <= |t.active[k].queue|
  {
    var q, placed := t.active[k].queue, Placed(c, t, p, k, i);
    && |placed.active| == c.levels
    && u.procs == Refill(c, t.procs, q[..i])
    && u.active == placed.active[k := Level(t.active[k].ticksLeft, q[i..])]
    && u.expired == placed.expired
  }

  lemma MigrationStarts(c: Config, t: Table, p: nat, k: nat)
    requires Returning(c, t, p, k)
    ensures Migrating(c, t, t, p, k, 0)
  {
    var q := t.active[k].queue;
    assert q[..0] == [] && q[0..] == q;
    assert t.active[k := Level(t.active[k].ticksLeft, q)] == t.active;
  }

  lemma MigrationLeft(c: Config, t: Table, u: Table, p: nat, k: nat, i: nat)
    requires Returning(c, t, p, k) && i <= |t.active[k].queue| && Migrating(c, t, u, p, k, i)
    ensures |u.active| == c.levels && u.active[k].queue == t.active[k].queue[i..]
  {
    hide Placed, Refill, Partition, ActiveOk, ExpiredOk;
  }

  lemma PlacedShape(c: Config, t: Table, p: nat, k: nat, i: nat)
    requires Returning(c, t, p, k) && i <= |t.active[k].queue|
    ensures Sized(c, Placed(c, t, p, k, i)) && Placed(c, t, p, k, i).procs == Refill(c, t.procs, t.active[k].queue)
  {
    hide Partition, ActiveOk, ExpiredOk, Refill, PlaceAll;
    var q := t.active[k].queue;
    WithoutSlots(q[..i], p, c.nproc);
    RefillSized(c, t, q);
    PlaceAllProcs(c, Left(c, t, k, [], q), Without(q[..i], p), k + 1);
    PlaceAllSnoc(c, Left(c, t, k, [], q), Without(q[..i], p), p, k + 1);
  }

  lemma MoversPrefix(c: Config, t: Table, p: nat, k: nat, i: nat)
    requires Returning(c, t, p, k) && i <= |t.active[k].queue|
    requires i < |t.active[k].queue| || t.procs[p].state != ZOMBIE
    ensures Without(t.active[k].queue[..i], p) < Movers(t.procs, t.active[k].queue, p)
  {
    var q, movers := t.active[k].queue, Movers(t.procs, t.active[k].queue, p);
    WithoutPrefix(q, i, p);
    if i == |q| {
      assert q[..i] == q;
    } else {
      MoversAll(c, t, p, k);
      assert |movers| == |q| by { assert |multiset(movers)| == |multiset(q)|; }
    }
  }

  /** Some process is still missing from what has been placed, so there is room. */
  lemma PlacedCore(c: Config, t: Table, p: nat, k: nat, i: nat, d: nat)
    requires Returning(c, t, p, k) && t.active[k].ticksLeft <= 0 && i <= |t.active[k].queue| && d < c.levels
    requires i < |t.active[k].queue| || t.procs[p].state != ZOMBIE
    ensures HasPlace(c, Placed(c, t, p, k, i), k + 1, d)
  {
    hide Partition, ActiveOk, ExpiredOk, Movers, Without, PlaceAll;
    var q, movers := t.active[k].queue, Movers(t.procs, t.active[k].queue, p);
    var a := Without(q[..i], p);
    MoversPrefix(c, t, p, k, i);
    WithoutSlots(q[..i], p, c.nproc);
    assert movers == a + movers[|a|..];
    DepleteStart(c, t, p, k);
    PlaceSomeCore(c, Left(c, t, k, [], q), a, movers[|a|..], k + 1);
    PlaceFor(c, Placed(c, t, p, k, i), movers[|a|..], k + 1, d);
  }

  /** One round: the head of the depleted level is refilled and taken out. */
  ghost function HeadOut(c: Config, u: Table, k: nat): Table
    requires k < |u.active| && u.active[k].queue != [] && u.active[k].queue[0] < |u.procs|
  {
    var x := u.active[k].queue[0];
    Table(u.procs[x := u.procs[x].(ticksLeft := c.procQuantum)],
          u.active[k := Level(u.active[k].ticksLeft, u.active[k].queue[1..])], u.expired)
  }

  /** The one that ran is only taken out. */
  lemma MigrateRunning(c: Config, t: Table, u: Table, p: nat, k: nat, i: nat)
    requires Returning(c, t, p, k) && i < |t.active[k].queue| && Migrating(c, t, u, p, k, i)
    requires t.active[k].queue[i] == p
    ensures |u.procs| == c.nproc && |u.active| == c.levels && u.active[k].queue == t.active[k].queue[i..]
    ensures Migrating(c, t, HeadOut(c, u, k), p, k, i + 1)
  {
    var q := t.active[k].queue;
    PlacedShape(c, t, p, k, i);
    RefillSnoc(c, t.procs, q[..i], p);
    assert q[..i + 1] == q[..i] + [p] && q[i..][1..] == q[i + 1..];
    Queued(t, [], t.active, k, p);
    NotTwice(q, p, i);
    WithoutSnoc(q[..i], p, p);
    WithoutAbsent(q[..i], p);
  }

  lemma NotTwice(q: seq<nat>, p: nat, i: nat)
    requires i < |q| && q[i] == p && multiset(q)[p] <= 1
    ensures p !in q[..i]
  {
    assert q == q[..i] + [p] + q[i + 1..];
    MemberCount(q[..i], p);
  }

  /** Placing below level `k` does not look at level `k`. */
  lemma PlaceElsewhere(c: Config, w: Table, v: Table, x: nat, k: nat)
    requires Sized(c, w) && Sized(c, v) && x < c.nproc && k < c.levels
    requires v.active == w.active[k := v.active[k]] && v.expired == w.expired
    requires v.procs[x].defaultLevel == w.procs[x].defaultLevel <= k
    ensures var a, b := Place(c, v, x, k + 1), Place(c, w, x, k + 1);
      a.active == b.active[k := v.active[k]] && a.expired == b.expired && a.procs == v.procs
  {
    NextBelow(v.active, w.active, k);
  }

  lemma PlacedStep(c: Config, t: Table, p: nat, k: nat, i: nat)
    requires Returning(c, t, p, k) && i < |t.active[k].queue| && t.active[k].queue[i] != p
    ensures Sized(c, Placed(c, t, p, k, i))
    ensures Placed(c, t, p, k, i + 1) == Place(c, Placed(c, t, p, k, i), t.active[k].queue[i], k + 1)
  {
    hide Partition, ActiveOk, ExpiredOk, Refill, Place, PlaceAll, Without;
    var q, x := t.active[k].queue, t.active[k].queue[i];
    assert q[..i + 1] == q[..i] + [x];
    WithoutSnoc(q[..i], x, p);
    WithoutSlots(q[..i], p, c.nproc);
    RefillSized(c, t, q);
    PlaceAllSnoc(c, Left(c, t, k, [], q), Without(q[..i], p), x, k + 1);
  }

  lemma HeadOutSized(c: Config, t: Table, u: Table, p: nat, k: nat, i: nat)
    requires Returning(c, t, p, k) && i < |t.active[k].queue| && Migrating(c, t, u, p, k, i)
    ensures |u.procs| == c.nproc && |u.active| == c.levels && u.active[k].queue == t.active[k].queue[i..]
    ensures Sized(c, HeadOut(c, u, k))
    ensures HeadOut(c, u, k).procs == Refill(c, t.procs, t.active[k].queue[..i + 1])
    ensures HeadOut(c, u, k).active == Placed(c, t, p, k, i).active[k := Level(t.active[k].ticksLeft, t.active[k].queue[i + 1..])]
    ensures forall j :: 0 <= j < c.nproc ==> HeadOut(c, u, k).procs[j].defaultLevel == t.procs[j].defaultLevel
  {
    hide Partition, ActiveOk, ExpiredOk, Placed;
    var q := t.active[k].queue;
    PlacedShape(c, t, p, k, i);
    RefillAt(c, t.procs, q[..i + 1]);
    RefillSnoc(c, t.procs, q[..i], q[i]);
    assert q[..i + 1] == q[..i] + [q[i]] && q[i..][1..] == q[i + 1..];
  }

  /** Any other is taken out and then placed. */
  lemma MigrateOther(c: Config, t: Table, u: Table, p: nat, k: nat, i: nat)
    requires Returning(c, t, p, k) && i < |t.active[k].queue| && Migrating(c, t, u, p, k, i)
    requires t.active[k].queue[i] != p
    ensures |u.procs| == c.nproc && |u.active| == c.levels && u.active[k].queue == t.active[k].queue[i..]
    ensures Sized(c, HeadOut(c, u, k))
    ensures Migrating(c, t, Place(c, HeadOut(c, u, k), t.active[k].queue[i], k + 1), p, k, i + 1)
  {
    hide Placed, Place, Refill, HeadOut;
    HeadOutSized(c, t, u, p, k, i);
    PlacedShape(c, t, p, k, i);
    PlacedShape(c, t, p, k, i + 1);
    PlacedStep(c, t, p, k, i);
    RefillAt(c, t.procs, t.active[k].queue);
    HeadOutRest(c, u, k);
    PlaceElsewhere(c, Placed(c, t, p, k, i), HeadOut(c, u, k), t.active[k].queue[i], k);
  }

  lemma HeadOutRest(c: Config, u: Table, k: nat)
    requires k < |u.active| && u.active[k].queue != [] && u.active[k].queue[0] < |u.procs|
    ensures HeadOut(c, u, k).expired == u.expired
  {
  }

  lemma MoverLevel(c: Config, t: Table, p: nat, k: nat, i: nat)
    requires Returning(c, t, p, k) && i < |t.active[k].queue|
    ensures t.active[k].queue[i] < c.nproc == |t.procs| && t.procs[t.active[k].queue[i]].defaultLevel <= k < c.levels
  {
    LeavesOnce(c, t, p, k);
    assert t.active[k].queue[i] in t.active[k].queue;
  }

  /** In each round there is a place for the head once it is out. */
  lemma MigrateRoom(c: Config, t: Table, u: Table, p: nat, k: nat, i: nat, d: nat)
    requires Returning(c, t, p, k) && t.active[k].ticksLeft <= 0 && i < |t.active[k].queue| && d <= k
    requires Migrating(c, t, u, p, k, i) && |t.active[k].queue| <= c.nproc
    ensures |u.procs| == c.nproc && |u.active| == c.levels && u.active[k].queue == t.active[k].queue[i..]
    ensures HasPlace(c, HeadOut(c, u, k), k + 1, d)
  {
    hide Placed, HeadOut, NextWithQuantum;
    PlacedCore(c, t, p, k, i, d);
    HeadOutSized(c, t, u, p, k, i);
    HeadOutRest(c, u, k);
    NextBelow(HeadOut(c, u, k).active, Placed(c, t, p, k, i).active, k);
  }

  lemma MigrationPlaced(c: Config, t: Table, u: Table, p: nat, k: nat)
    requires Returning(c, t, p, k) && Migrating(c, t, u, p, k, |t.active[k].queue|)
    ensures u == Placed(c, t, p, k, |t.active[k].queue|) && Sized(c, u)
    ensures u.procs[p].state == t.procs[p].state && u.procs[p].defaultLevel == t.procs[p].defaultLevel
  {
    var q := t.active[k].queue;
    assert q[..|q|] == q && q[|q|..] == [];
    PlacedShape(c, t, p, k, |q|);
    RefillAt(c, t.procs, q);
    PlaceAllKeeps(c, t, p, k);
  }

  lemma PlacedLast(c: Config, t: Table, p: nat, k: nat)
    requires Returning(c, t, p, k)
    ensures Sized(c, Placed(c, t, p, k, |t.active[k].queue|))
    ensures Deplete(c, t, p, k) == var u := Placed(c, t, p, k, |t.active[k].queue|);
      if t.procs[p].state == ZOMBIE then u else Place(c, u, p, k + 1)
  {
    var q := t.active[k].queue;
    assert q[..|q|] == q;
    RefillSized(c, t, q);
    WithoutSlots(q, p, c.nproc);
    PlaceAllSnoc(c, Left(c, t, k, [], q), Without(q, p), p, k + 1);
    assert Without(q, p) + [] == Without(q, p);
  }

  /** When the loop ends, the one that ran is placed last, unless it is a zombie. */
  lemma MigrationEnds(c: Config, t: Table, u: Table, p: nat, k: nat)
    requires Returning(c, t, p, k) && t.active[k].ticksLeft <= 0 && Migrating(c, t, u, p, k, |t.active[k].queue|)
    ensures Sized(c, u) && u.procs[p].state == t.procs[p].state && u.procs[p].defaultLevel == t.procs[p].defaultLevel
    ensures Deplete(c, t, p, k) == if t.procs[p].state == ZOMBIE then u else Place(c, u, p, k + 1)
    ensures t.procs[p].state != ZOMBIE ==> HasPlace(c, u, k + 1, t.procs[p].defaultLevel)
  {
    hide Placed, Deplete, Place, HasPlace;
    MigrationPlaced(c, t, u, p, k);
    PlacedLast(c, t, p, k);
    if t.procs[p].state != ZOMBIE { PlacedCore(c, t, p, k, |t.active[k].queue|, t.procs[p].defaultLevel); }
  }

  /** Level `k` itself stays as it is while its processes are placed below. */
  lemma PlaceAllKeeps(c: Config, t: Table, p: nat, k: nat)
    requires Returning(c, t, p, k)
    ensures |Placed(c, t, p, k, |t.active[k].queue|).active| == c.levels
    ensures Placed(c, t, p, k, |t.active[k].queue|).active[k] == Level(t.active[k].ticksLeft, [])
  {
    var q := t.active[k].queue;
    assert q[..|q|] == q;
    WithoutSlots(q, p, c.nproc);
    RefillSized(c, t, q);
    PlaceAllLevel(c, Left(c, t, k, [], q), Without(q, p), k);
  }

  lemma {:induction false} PlaceAllLevel(c: Config, t: Table, ps: seq<nat>, k: nat)
    requires Sized(c, t) && Slots(ps, c.nproc) && k < c.levels
    ensures |PlaceAll(c, t, ps, k + 1).active| == c.levels && PlaceAll(c, t, ps, k + 1).active[k] == t.active[k]
    decreases |ps|
  {
    if ps == [] {
    } else {
      PlaceAllLevel(c, Place(c, t, ps[0], k + 1), ps[1..], k);
    }
  }

  // ---------- putting one process back ----------

  /** `p` can be put back from level `nk` on, and goes to the expired set only refilled. */
  ghost predicate PutReady(c: Config, t: Table, p: nat, nk: nat) { Whole(PutReadyFacts(c, t, p, nk)) }

  ghost predicate PutReadyFacts(c: Config, t: Table, p: nat, nk: nat) {
    && Sized(c, t) && p < c.nproc && t.procs[p].defaultLevel <= nk && HasPlace(c, t, nk, t.procs[p].defaultLevel)
    && (NextWithQuantum(t.active, Max(nk, t.procs[p].defaultLevel)).None? ==> t.procs[p].ticksLeft == c.procQuantum)
  }

  lemma RequeueFacts(c: Config, t: Table, p: nat, k: nat)
    requires Returning(c, t, p, k) && t.active[k].ticksLeft > 0 && t.procs[p].state != ZOMBIE
    ensures p in t.active[k].queue && PutReady(c, TakenOut(c, t, p, k), p, k + |Spent(t, p)|)
  {
    RequeueLive(c, t, p, k);
    RequeueReady(c, t, p, k);
    RefillAt(c, t.procs, Spent(t, p));
    PlaceFor(c, TakenOut(c, t, p, k), [p], k + |Spent(t, p)|, t.procs[p].defaultLevel);
  }

  /** Once topped up, the process that ran is ready to be taken out and put back. */
  lemma TopUpFacts(c: Config, t: Table, p: nat, k: nat)
    requires Returning(c, t, p, k) && t.active[k].ticksLeft > 0
    ensures var u := t.(procs := Refill(c, t.procs, Spent(t, p)));
      var v := u.(active := u.active[k := Level(u.active[k].ticksLeft, Without(u.active[k].queue, p))]);
      && u.procs[p].state == t.procs[p].state
      && (t.procs[p].state == ZOMBIE ==> Requeue(c, t, p, k) == u)
      && (t.procs[p].state != ZOMBIE ==>
            && p in t.active[k].queue && PutReady(c, v, p, k + |Spent(t, p)|)
            && Requeue(c, t, p, k) == Place(c, v, p, k + |Spent(t, p)|))
  {
    RefillAt(c, t.procs, Spent(t, p));
    assert t.active[k := Level(t.active[k].ticksLeft, t.active[k].queue)] == t.active;
    if t.procs[p].state != ZOMBIE { RequeueFacts(c, t, p, k); }
  }

  lemma RefillOne(c: Config, procs: seq<Proc>, p: nat)
    requires p < |procs|
    ensures Refill(c, procs, [p]) == procs[p := procs[p].(ticksLeft := c.procQuantum)] && Refill(c, procs, []) == procs
  {
    assert [p][1..] == [];
  }

  // ---------- the selection loops ----------

  lemma FirstRunnableIs(procs: seq<Proc>, q: seq<nat>, i: nat)
    requires Slots(q, |procs|) && i < |q| && procs[q[i]].state == RUNNABLE
    requires forall j :: 0 <= j < i ==> procs[q[j]].state != RUNNABLE
    ensures FirstRunnable(procs, q) == Some(i)
  {
  }

  lemma FirstRunnableNone(procs: seq<Proc>, q: seq<nat>)
    requires Slots(q, |procs|) && forall j :: 0 <= j < |q| ==> procs[q[j]].state != RUNNABLE
    ensures FirstRunnable(procs, q) == None
  {
  }

  /** Passing over a level without a RUNNABLE process does not change the choice. */
  lemma PickSkips(procs: seq<Proc>, ls: seq<Level>, k: nat)
    requires SlotsIn(ls, |procs|) && k < |ls| && FirstRunnable(procs, ls[k].queue) == None
    ensures Pick(procs, ls, k) == Pick(procs, ls, k + 1)
  {
  }

  lemma PickEnds(procs: seq<Proc>, ls: seq<Level>)
    requires SlotsIn(ls, |procs|)
    ensures Pick(procs, ls, |ls|) == None
  {
  }

  lemma PickHere(procs: seq<Proc>, ls: seq<Level>, k: nat, i: nat)
    requires SlotsIn(ls, |procs|) && k < |ls| && FirstRunnable(procs, ls[k].queue) == Some(i)
    ensures Pick(procs, ls, k) == Some((k, i))
  {
  }

  // ---------- the swap loops ----------

  /** The processes re-enqueued after `k` whole levels and the first `i` of level `k`. */
  ghost function Moved(ls: seq<Level>, k: nat, i: nat): seq<nat>
    requires k < |ls| && i <= |ls[k].queue|
  {
    Flat(ls[..k]) + ls[k].queue[..i]
  }

  lemma {:induction false} FlatSplit(a: seq<Level>, b: seq<Level>)
    ensures Flat(a + b) == Flat(a) + Flat(b)
  {
    if a == [] {
      assert a + b == b;
    } else {
      assert (a + b)[1..] == a[1..] + b;
      FlatSplit(a[1..], b);
    }
  }

  lemma MovedLevel(ls: seq<Level>, k: nat)
    requires k < |ls|
    ensures Moved(ls, k, 0) == Flat(ls[..k]) && Moved(ls, k, |ls[k].queue|) == Flat(ls[..k + 1])
  {
    assert ls[..k + 1] == ls[..k] + [ls[k]];
    FlatSplit(ls[..k], [ls[k]]);
    assert Flat([ls[k]]) == ls[k].queue + Flat([ls[k]][1..]);
    assert ls[k].queue[..|ls[k].queue|] == ls[k].queue;
  }

  lemma MovedPrefix(ls: seq<Level>, k: nat, i: nat)
    requires k < |ls| && i < |ls[k].queue|
    ensures Moved(ls, k, i) < Flat(ls) && Moved(ls, k, i + 1) <= Flat(ls)
    ensures Moved(ls, k, i + 1) == Moved(ls, k, i) + [ls[k].queue[i]]
  {
    assert ls == ls[..k] + ls[k..] && ls[k..][0] == ls[k];
    FlatSplit(ls[..k], ls[k..]);
    assert ls[k].queue == ls[k].queue[..i] + ls[k].queue[i..];
    assert ls[k].queue[..i + 1] == ls[k].queue[..i] + [ls[k].queue[i]];
    assert ls[k].queue == ls[k].queue[..i + 1] + ls[k].queue[i + 1..];
  }

  /** The table when the processes `moved` of the old active set have been re-enqueued and the
      others are still where they were, now in the expired set. */
  ghost predicate Swapping(c: Config, t: Table, u: Table, moved: seq<nat>, rest: seq<Level>)
    requires Core(c, t, []) && Slots(moved, c.nproc)
  {
    Whole(SwappingFacts(c, t, u, moved, rest))
  }

  ghost predicate SwappingFacts(c: Config, t: Table, u: Table, moved: seq<nat>, rest: seq<Level>)
    requires Core(c, t, []) && Slots(moved, c.nproc)
  {
    && u.procs == Refill(c, t.procs, moved)
    && u.active == Reentered(c, t, moved).active
    && u.expired == rest && |rest| == c.levels
  }

  ghost function Reentered(c: Config, t: Table, moved: seq<nat>): Table
    requires Core(c, t, []) && Slots(moved, c.nproc)
  {
    FlatSlots(t.active, c.nproc);
    RefillSized(c, t, Flat(t.active));
    PlaceAll(c, Traded(c, t), moved, 0)
  }

  lemma ReenteredFacts(c: Config, t: Table, moved: seq<nat>)
    requires Core(c, t, []) && moved <= Flat(t.active)
    ensures Slots(Flat(t.active), c.nproc) && Slots(moved, c.nproc) && Sized(c, Reentered(c, t, moved))
    ensures forall k :: 0 <= k < c.levels ==> Reentered(c, t, moved).active[k].ticksLeft > 0
    ensures Reentered(c, t, moved).expired == seq(c.levels, _ => Level(c.levelQuantum, []))
    ensures Reentered(c, t, moved).procs == Refill(c, t.procs, Flat(t.active))
    ensures moved < Flat(t.active) ==> Roomy(c, Reentered(c, t, moved).active)
  {
    FlatSlots(t.active, c.nproc);
    SwapStart(c, t);
    var rest := Flat(t.active)[|moved|..];
    assert Flat(t.active) == moved + rest;
    PlaceSomeCore(c, Traded(c, t), moved, rest, 0);
    if rest != [] { Room(c, Reentered(c, t, moved), rest); }
    PlaceAllProcs(c, Traded(c, t), moved, 0);
    AllFull(c, Traded(c, t), moved);
  }

  lemma SwapStart(c: Config, t: Table)
    requires Core(c, t, [])
    ensures Slots(Flat(t.active), c.nproc) && Core(c, Traded(c, t), Flat(t.active))
    ensures forall i :: 0 <= i < |Flat(t.active)| ==> Traded(c, t).procs[Flat(t.active)[i]].ticksLeft == c.procQuantum
    ensures forall k :: 0 <= k < c.levels ==> Traded(c, t).active[k].ticksLeft > 0
  {
    FlatSlots(t.active, c.nproc);
    RefillAt(c, t.procs, Flat(t.active));
    TradedLevels(c, t);
    TradedPartition(c, t);
    forall k | 0 <= k < c.levels ensures t.expired[k].ticksLeft > 0 { assert ExpiredOk(c, t.procs, t.expired[k], k); }
  }

  /** With quantum on every active level, the expired set is never used. */
  lemma {:induction false} AllFull(c: Config, t: Table, ps: seq<nat>)
    requires Sized(c, t) && Slots(ps, c.nproc) && forall k :: 0 <= k < c.levels ==> t.active[k].ticksLeft > 0
    ensures PlaceAll(c, t, ps, 0).expired == t.expired && |PlaceAll(c, t, ps, 0).active| == c.levels
    ensures forall k :: 0 <= k < c.levels ==> PlaceAll(c, t, ps, 0).active[k].ticksLeft > 0
    decreases |ps|
  {
    if ps == [] {
    } else {
      AllFull(c, Place(c, t, ps[0], 0), ps[1..]);
    }
  }

  /** What the old active set still holds: levels before `k` are done, the first `i` of `k` are out. */
  ghost function RestAt(c: Config, ls: seq<Level>, k: nat, i: nat): (r: seq<Level>)
    requires k < |ls| ==> i <= |ls[k].queue|
    ensures |r| == |ls| && forall j :: 0 <= j < |ls| ==> r[j] == RestLevel(c, ls, k, i, j)
  {
    seq(|ls|, j requires 0 <= j < |ls| => RestLevel(c, ls, k, i, j))
  }

  ghost function RestLevel(c: Config, ls: seq<Level>, k: nat, i: nat, j: nat): Level
    requires j < |ls| && (k < |ls| ==> i <= |ls[k].queue|)
  {
    if j < k then Level(c.levelQuantum, [])
    else if j == k then Level(c.levelQuantum, ls[k].queue[i..])
    else ls[j]
  }

  /** What it holds before level `k` is touched. */
  ghost function RestBefore(c: Config, ls: seq<Level>, k: nat): (r: seq<Level>)
    ensures |r| == |ls| && forall j :: 0 <= j < |ls| ==> r[j] == if j < k then Level(c.levelQuantum, []) else ls[j]
  {
    seq(|ls|, j requires 0 <= j < |ls| => if j < k then Level(c.levelQuantum, []) else ls[j])
  }

  lemma RestSteps(c: Config, ls: seq<Level>, k: nat)
    requires k < |ls|
    ensures RestBefore(c, ls, 0) == ls
    ensures RestBefore(c, ls, k)[k := Level(c.levelQuantum, ls[k].queue)] == RestAt(c, ls, k, 0)
    ensures RestAt(c, ls, k, |ls[k].queue|) == RestBefore(c, ls, k + 1)
  {
    assert forall j :: 0 <= j < |ls| ==> RestBefore(c, ls, 0)[j] == ls[j];
    assert ls[k].queue[0..] == ls[k].queue && ls[k].queue[|ls[k].queue|..] == [];
  }

  lemma SwapBegins(c: Config, t: Table)
    requires Core(c, t, [])
    ensures Swapping(c, t, Table(t.procs, t.expired, t.active), [], t.active)
  {
    FlatSlots(t.active, c.nproc);
  }

  /** One round: the head of the old active level `k`, refilled and taken out. */
  ghost function OldHeadOut(c: Config, u: Table, k: nat): Table
    requires k < |u.expired| && u.expired[k].queue != [] && u.expired[k].queue[0] < |u.procs|
  {
    var x := u.expired[k].queue[0];
    Table(u.procs[x := u.procs[x].(ticksLeft := c.procQuantum)], u.active,
          u.expired[k := Level(u.expired[k].ticksLeft, u.expired[k].queue[1..])])
  }

  lemma ReenteredStep(c: Config, t: Table, moved: seq<nat>, x: nat)
    requires Core(c, t, []) && moved + [x] <= Flat(t.active)
    ensures Slots(moved, c.nproc) && Slots(moved + [x], c.nproc) && x < c.nproc == |t.procs|
    ensures t.procs[x].defaultLevel < c.levels == |Reentered(c, t, moved).active|
    ensures Reentered(c, t, moved + [x]).active == Append(Reentered(c, t, moved).active, t.procs[x].defaultLevel, x)
  {
    FlatSlots(t.active, c.nproc);
    assert x == Flat(t.active)[|moved|];
    RefillAt(c, t.procs, Flat(t.active));
    ReenteredFacts(c, t, moved);
    RefillSized(c, t, Flat(t.active));
    PlaceAllSnoc(c, Traded(c, t), moved, x, 0);
  }

  lemma SwapHead(c: Config, t: Table, u: Table, k: nat, i: nat)
    requires Core(c, t, []) && k < c.levels && i < |t.active[k].queue| && Slots(Moved(t.active, k, i), c.nproc)
    requires Swapping(c, t, u, Moved(t.active, k, i), RestAt(c, t.active, k, i))
    ensures var x := t.active[k].queue[i];
      && x < c.nproc && |u.procs| == c.nproc && |u.expired| == c.levels && u.expired[k].queue != [] && u.expired[k].queue[0] == x
      && Sized(c, OldHeadOut(c, u, k)) && OldHeadOut(c, u, k).procs[x].defaultLevel == t.procs[x].defaultLevel
      && HasPlace(c, OldHeadOut(c, u, k), t.procs[x].defaultLevel, t.procs[x].defaultLevel)
  {
    var moved, x := Moved(t.active, k, i), t.active[k].queue[i];
    MovedPrefix(t.active, k, i);
    ReenteredFacts(c, t, moved);
    RefillAt(c, t.procs, moved);
    assert RestAt(c, t.active, k, i)[k].queue[0] == x;
    assert Slots(t.active[k].queue, c.nproc);
  }

  lemma SwapStep(c: Config, t: Table, u: Table, k: nat, i: nat)
    requires Core(c, t, []) && k < c.levels && i < |t.active[k].queue| && Slots(Moved(t.active, k, i), c.nproc)
    requires Swapping(c, t, u, Moved(t.active, k, i), RestAt(c, t.active, k, i))
    requires |u.procs| == c.nproc && |u.expired| == c.levels && u.expired[k].queue != [] && u.expired[k].queue[0] == t.active[k].queue[i] < c.nproc
    requires Sized(c, OldHeadOut(c, u, k))
    ensures var x := t.active[k].queue[i];
      && Slots(Moved(t.active, k, i + 1), c.nproc)
      && Swapping(c, t, Place(c, OldHeadOut(c, u, k), x, t.procs[x].defaultLevel),
                  Moved(t.active, k, i + 1), RestAt(c, t.active, k, i + 1))
  {
    var moved, x, v := Moved(t.active, k, i), t.active[k].queue[i], OldHeadOut(c, u, k);
    MovedPrefix(t.active, k, i);
    ReenteredFacts(c, t, moved);
    ReenteredStep(c, t, moved, x);
    RefillAt(c, t.procs, moved);
    RefillSnoc(c, t.procs, moved, x);
    assert t.active[k].queue[i..][1..] == t.active[k].queue[i + 1..];
    assert RestAt(c, t.active, k, i + 1) == v.expired;
    assert NextWithQuantum(v.active, Max(v.procs[x].defaultLevel, v.procs[x].defaultLevel)) == Some(v.procs[x].defaultLevel);
  }

  lemma SwapEnds(c: Config, t: Table, u: Table)
    requires Core(c, t, []) && Slots(Flat(t.active[..c.levels]), c.nproc)
    requires Swapping(c, t, u, Flat(t.active[..c.levels]), RestBefore(c, t.active, c.levels))
    ensures u == Swap(c, t)
  {
    assert t.active[..c.levels] == t.active;
    ReenteredFacts(c, t, Flat(t.active));
    assert forall j :: 0 <= j < c.levels ==> u.expired[j] == Swap(c, t).expired[j];
  }

  // ---------- the first process ----------

  /** No process, and all levels empty with full quanta. */
  ghost function EmptyTable(c: Config): Table {
    Table(seq(c.nproc, i => Proc(UNUSED, 0, None, NoChan, false, 0, 0)),
          seq(c.levels, k => Level(c.levelQuantum, [])), seq(c.levels, k => Level(c.levelQuantum, [])))
  }

  /** Placing the first process gives the boot state. */
  lemma BootIs(c: Config, t: Table)
    requires t == WithProc(EmptyTable(c), 0, Proc(RUNNABLE, 1, None, NoChan, false, c.procQuantum, c.startingLevel))
    ensures Sized(c, t) && HasPlace(c, t, c.startingLevel, c.startingLevel)
    ensures Place(c, t, 0, c.startingLevel) == Boot(c).table
  {
    var b, u := Boot(c).table, Place(c, t, 0, c.startingLevel);
    assert u.active == Append(t.active, c.startingLevel, 0);
    assert forall k :: 0 <= k < c.levels ==> u.active[k] == b.active[k] && u.expired[k] == b.expired[k];
    assert u.active == b.active && u.expired == b.expired;
    assert u.procs == b.procs;
  }
}
