/**
The invariant nobody wrote down: what holds of the queues, quanta and process states at every
step of the scheduler, and the proof that every step of `Rsdl.Next` keeps it.
*/
module RsdlInvariant {
  import opened Base
  import opened Rsdl

  /** How often a slot occurs in the queues of a set. */
  ghost function Count(ls: seq<Level>, p: nat): nat {
    if ls == [] then 0 else multiset(ls[0].queue)[p] + Count(ls[1..], p)
  }

  ghost predicate IsLive(procs: seq<Proc>, p: nat) { p < |procs| && Live(procs[p]) }

  /** Every live process is in exactly one slot of exactly one queue, save those in `missing`,
      and no other process is in any queue. */
  ghost predicate Partition(t: Table, missing: seq<nat>) {
    forall p: nat ::
      Count(t.active, p) + Count(t.expired, p) + multiset(missing)[p] == if IsLive(t.procs, p) then 1 else 0
  }

  /** A level of the active set: a depleted one is empty, members have quantum left and never
      stand above their default level. */
  ghost predicate ActiveOk(c: Config, procs: seq<Proc>, l: Level, k: nat) { Whole(ActiveOkFacts(c, procs, l, k)) }

  ghost predicate ActiveOkFacts(c: Config, procs: seq<Proc>, l: Level, k: nat) {
    && 0 <= l.ticksLeft <= c.levelQuantum
    && (l.ticksLeft == 0 ==> l.queue == [])
    && forall p :: p in l.queue ==>
      p < |procs| && procs[p].defaultLevel <= k && 0 < procs[p].ticksLeft <= c.procQuantum
  }

  /** A level of the expired set: full quantum, and only its own processes, all refilled. */
  ghost predicate ExpiredOk(c: Config, procs: seq<Proc>, l: Level, k: nat) { Whole(ExpiredOkFacts(c, procs, l, k)) }

  ghost predicate ExpiredOkFacts(c: Config, procs: seq<Proc>, l: Level, k: nat) {
    && l.ticksLeft == c.levelQuantum
    && forall p :: p in l.queue ==>
      p < |procs| && procs[p].defaultLevel == k && procs[p].ticksLeft == c.procQuantum
  }

  ghost predicate LevelsOk(c: Config, t: Table) { Whole(LevelsOkFacts(c, t)) }

  ghost predicate LevelsOkFacts(c: Config, t: Table) {
    && WellFormed(c, t)
    && (forall k :: 0 <= k < c.levels ==> ActiveOk(c, t.procs, t.active[k], k))
    && (forall k :: 0 <= k < c.levels ==> ExpiredOk(c, t.procs, t.expired[k], k))
  }

  ghost predicate Core(c: Config, t: Table, missing: seq<nat>) { Whole(CoreFacts(c, t, missing)) }

  ghost predicate CoreFacts(c: Config, t: Table, missing: seq<nat>) {
    LevelsOk(c, t) && Slots(missing, c.nproc) && Partition(t, missing)
  }

  /** The CPU runs the one RUNNING process, from an active level that holds it. */
  ghost predicate CpuOk(t: Table, cpu: Cpu) {
    match cpu
    case Scheduling => forall i :: 0 <= i < |t.procs| ==> t.procs[i].state != RUNNING
    case Running(p, k) =>
      && p < |t.procs| && k < |t.active| && p in t.active[k].queue && t.procs[p].state == RUNNING
      && forall i :: 0 <= i < |t.procs| && i != p ==> t.procs[i].state != RUNNING
  }

  /** Only `wait` sleeps on a process address, its own, and never past the death of a child. */
  ghost predicate WaitOk(procs: seq<Proc>) {
    forall i :: 0 <= i < |procs| && procs[i].state == SLEEPING && procs[i].chan.ProcAddr? ==>
      procs[i].chan.slot == i && !HasZombieChild(procs, i)
  }

  ghost predicate HasLiveParent(procs: seq<Proc>, i: nat) {
    i < |procs| && procs[i].parent.Some? && procs[i].parent.value != i && IsLive(procs, procs[i].parent.value)
  }

  /** Init lives, and every other live or dead process has a live parent to reap it. */
  ghost predicate ParentsOk(procs: seq<Proc>, init: nat) {
    && IsLive(procs, init)
    && forall i {:trigger HasLiveParent(procs, i)} ::
      0 <= i < |procs| && i != init && (Live(procs[i]) || procs[i].state == ZOMBIE) ==> HasLiveParent(procs, i)
  }

  ghost predicate EmbryosOk(c: Config, procs: seq<Proc>) {
    forall i :: 0 <= i < |procs| && procs[i].state == EMBRYO ==> procs[i].ticksLeft == c.procQuantum
  }

  ghost predicate FamilyOk(c: Config, procs: seq<Proc>, init: nat) { Whole(FamilyOkFacts(c, procs, init)) }

  ghost predicate FamilyOkFacts(c: Config, procs: seq<Proc>, init: nat) {
    WaitOk(procs) && ParentsOk(procs, init) && EmbryosOk(c, procs)
  }

  ghost predicate Inv(c: Config, s: State) { Whole(InvFacts(c, s)) }

  ghost predicate InvFacts(c: Config, s: State) {
    Core(c, s.table, []) && CpuOk(s.table, s.cpu) && FamilyOk(c, s.table.procs, s.initproc)
  }

  // ---------- counting ----------

  lemma {:induction false} CountUpdate(ls: seq<Level>, k: nat, l: Level, p: nat)
    requires k < |ls|
    ensures Count(ls[k := l], p) == Count(ls, p) - multiset(ls[k].queue)[p] + multiset(l.queue)[p]
  {
    if k == 0 {
      assert ls[k := l][1..] == ls[1..];
    } else {
      CountUpdate(ls[1..], k - 1, l, p);
      assert ls[k := l][1..] == ls[1..][k - 1 := l];
    }
  }

  lemma {:induction false} CountAtLeast(ls: seq<Level>, k: nat, p: nat)
    requires k < |ls|
    ensures multiset(ls[k].queue)[p] <= Count(ls, p)
  {
    if k == 0 {
    } else {
      CountAtLeast(ls[1..], k - 1, p);
    }
  }

  lemma {:induction false} CountFlat(ls: seq<Level>, p: nat)
    ensures multiset(Flat(ls))[p] == Count(ls, p)
  {
    if ls == [] {
    } else {
      CountFlat(ls[1..], p);
    }
  }

  lemma {:induction false} CountEmpty(ls: seq<Level>, p: nat)
    requires forall k :: 0 <= k < |ls| ==> ls[k].queue == []
    ensures Count(ls, p) == 0
  {
    if ls == [] {
    } else {
      CountEmpty(ls[1..], p);
    }
  }

  lemma {:induction false} CountRemove(ls: seq<Level>, p: nat, n: nat, x: nat)
    requires SlotsIn(ls, n) && Count(ls, p) <= 1
    ensures Count(RemoveFrom(ls, p, n), x) == if x == p then 0 else Count(ls, x)
  {
    if ls == [] {
    } else {
      assert SlotsIn(ls[1..], n);
      WithoutCount(ls[0].queue, p, x);
      CountRemove(ls[1..], p, n, x);
      assert RemoveFrom(ls, p, n)[1..] == RemoveFrom(ls[1..], p, n);
      assert p in ls[0].queue <==> multiset(ls[0].queue)[p] > 0;
    }
  }

  /** A process in a queue is live, and in that queue only once. */
  lemma Queued(t: Table, missing: seq<nat>, ls: seq<Level>, k: nat, p: nat)
    requires Partition(t, missing) && (ls == t.active || ls == t.expired)
    requires k < |ls| && p in ls[k].queue
    ensures IsLive(t.procs, p) && multiset(ls[k].queue)[p] == 1
  {
    CountAtLeast(ls, k, p);
    assert multiset(ls[k].queue)[p] > 0;
    assert Count(t.active, p) + Count(t.expired, p) + multiset(missing)[p] <= 1;
  }

  // ---------- placing ----------

  lemma CountAppend(ls: seq<Level>, k: nat, p: nat, x: nat)
    requires k < |ls|
    ensures Count(Append(ls, k, p), x) == Count(ls, x) + if x == p then 1 else 0
  {
    CountUpdate(ls, k, Append(ls, k, p)[k], x);
  }

  lemma PlacePartition(c: Config, t: Table, p: nat, rest: seq<nat>, floor: nat)
    requires Sized(c, t) && p < c.nproc && Partition(t, [p] + rest)
    ensures Partition(Place(c, t, p, floor), rest)
  {
    var u := Place(c, t, p, floor);
    forall x: nat
      ensures Count(u.active, x) + Count(u.expired, x) + multiset(rest)[x] == if IsLive(u.procs, x) then 1 else 0
    {
      assert multiset([p] + rest)[x] == multiset(rest)[x] + if x == p then 1 else 0;
      match NextWithQuantum(t.active, Max(floor, t.procs[p].defaultLevel))
      case Some(k) => CountAppend(t.active, k, p, x);
      case None => CountAppend(t.expired, t.procs[p].defaultLevel, p, x);
    }
  }

  /** A process that may be placed from `floor` on: it has quantum, and a full one if no active
      level takes it. */
  ghost predicate Ready(c: Config, t: Table, p: nat, floor: nat) {
    && p < c.nproc && p < |t.procs| && 0 < t.procs[p].ticksLeft <= c.procQuantum
    && (t.procs[p].ticksLeft == c.procQuantum
        || NextWithQuantum(t.active, Max(floor, t.procs[p].defaultLevel)).Some?)
  }

  lemma PlaceLevels(c: Config, t: Table, p: nat, floor: nat)
    requires LevelsOk(c, t) && Ready(c, t, p, floor)
    ensures LevelsOk(c, Place(c, t, p, floor))
  {
    match NextWithQuantum(t.active, Max(floor, t.procs[p].defaultLevel))
    case Some(k) => assert ActiveOk(c, t.procs, Append(t.active, k, p)[k], k);
    case None => assert ExpiredOk(c, t.procs, Append(t.expired, t.procs[p].defaultLevel, p)[t.procs[p].defaultLevel], t.procs[p].defaultLevel);
  }

  lemma PlaceCore(c: Config, t: Table, p: nat, rest: seq<nat>, floor: nat)
    requires Core(c, t, [p] + rest) && Ready(c, t, p, floor)
    ensures Core(c, Place(c, t, p, floor), rest)
  {
    PlacePartition(c, t, p, rest, floor);
    PlaceLevels(c, t, p, floor);
    assert forall i :: 0 <= i < |rest| ==> rest[i] == ([p] + rest)[i + 1];
  }

  lemma PlaceOneCore(c: Config, t: Table, p: nat, floor: nat)
    requires Core(c, t, [p]) && Ready(c, t, p, floor)
    ensures Core(c, Place(c, t, p, floor), [])
  {
    assert [p] + [] == [p];
    PlaceCore(c, t, p, [], floor);
  }

  lemma {:induction false} PlaceAllCore(c: Config, t: Table, ps: seq<nat>, floor: nat)
    requires Core(c, t, ps)
    requires forall i :: 0 <= i < |ps| ==> t.procs[ps[i]].ticksLeft == c.procQuantum
    ensures Core(c, PlaceAll(c, t, ps, floor), [])
    decreases |ps|
  {
    if ps == [] {
    } else {
      assert ps == [ps[0]] + ps[1..];
      PlaceCore(c, t, ps[0], ps[1..], floor);
      PlaceAllCore(c, Place(c, t, ps[0], floor), ps[1..], floor);
    }
  }

  lemma NextBelow(a: seq<Level>, b: seq<Level>, k: nat)
    requires |a| == |b| && forall j :: k < j < |a| ==> a[j].ticksLeft == b[j].ticksLeft
    ensures NextWithQuantum(a, k + 1) == NextWithQuantum(b, k + 1)
    decreases |a| - k
  {
    if k + 1 >= |a| {
    } else {
      NextBelow(a, b, k + 1);
    }
  }

  // ---------- handing the CPU back ----------

  /** The state in which `sched` switches to the scheduler: the process that ran has left RUNNING,
      and it and its level may be out of quantum. */
  ghost predicate Returning(c: Config, t: Table, p: nat, k: nat) { Whole(ReturningFacts(c, t, p, k)) }

  ghost predicate ReturningFacts(c: Config, t: Table, p: nat, k: nat) {
    && WellFormed(c, t) && Partition(t, []) && p < c.nproc && k < c.levels
    && (forall j :: 0 <= j < c.levels && j != k ==> ActiveOk(c, t.procs, t.active[j], j))
    && (forall j :: 0 <= j < c.levels ==> ExpiredOk(c, t.procs, t.expired[j], j))
    && 0 <= t.active[k].ticksLeft <= c.levelQuantum
    && (forall x :: x in t.active[k].queue && x != p ==>
          t.procs[x].defaultLevel <= k && 0 < t.procs[x].ticksLeft <= c.procQuantum)
    && (t.procs[p].state == ZOMBIE || (p in t.active[k].queue && t.procs[p].defaultLevel <= k
                                       && 0 <= t.procs[p].ticksLeft <= c.procQuantum))
  }

  /** Taking `p` out of the queue it ran from takes out its only entry. */
  lemma LeavesOnce(c: Config, t: Table, p: nat, k: nat)
    requires Returning(c, t, p, k)
    ensures t.procs[p].state == ZOMBIE ==> p !in t.active[k].queue
    ensures p !in Without(t.active[k].queue, p)
    ensures forall x :: x in Without(t.active[k].queue, p) ==> x in t.active[k].queue
    ensures p in t.active[k].queue ==>
      multiset(Without(t.active[k].queue, p)) + multiset([p]) == multiset(t.active[k].queue)
    ensures p !in t.active[k].queue ==> Without(t.active[k].queue, p) == t.active[k].queue
  {
    WithoutMembers(t.active[k].queue, p);
    if p in t.active[k].queue {
      Queued(t, [], t.active, k, p);
      WithoutOnce(t.active[k].queue, p);
      WithoutMultiset(t.active[k].queue, p);
    } else {
      WithoutAbsent(t.active[k].queue, p);
    }
  }

  /** Refilling keeps the levels in order. */
  lemma RefillLevels(c: Config, procs: seq<Proc>, ps: seq<nat>)
    requires Slots(ps, |procs|)
    ensures forall l, k :: ActiveOk(c, procs, l, k) ==> ActiveOk(c, Refill(c, procs, ps), l, k)
    ensures forall l, k :: ExpiredOk(c, procs, l, k) ==> ExpiredOk(c, Refill(c, procs, ps), l, k)
  {
    RefillAt(c, procs, ps);
  }

  /** Emptying level `k`, or taking `p` out of it, leaves exactly the removed ones missing. */
  lemma TakeOutPartition(c: Config, t: Table, k: nat, q: seq<nat>, ps: seq<nat>, missing: seq<nat>)
    requires Partition(t, []) && k < |t.active| && Slots(ps, |t.procs|)
    requires multiset(q) + multiset(missing) == multiset(t.active[k].queue)
    ensures Partition(Left(c, t, k, q, ps), missing)
  {
    var u := Left(c, t, k, q, ps);
    RefillAt(c, t.procs, ps);
    forall x: nat
      ensures Count(u.active, x) + Count(u.expired, x) + multiset(missing)[x] == if IsLive(u.procs, x) then 1 else 0
    {
      CountUpdate(t.active, k, Level(t.active[k].ticksLeft, q), x);
      assert (multiset(q) + multiset(missing))[x] == multiset(t.active[k].queue)[x];
      assert multiset([])[x] == 0;
      assert IsLive(u.procs, x) == IsLive(t.procs, x);
    }
  }

  lemma LeftLevels(c: Config, t: Table, p: nat, k: nat, q: seq<nat>, ps: seq<nat>)
    requires Returning(c, t, p, k) && Slots(q, c.nproc) && Slots(ps, c.nproc) && (t.active[k].ticksLeft == 0 ==> q == [])
    requires forall x :: x in q ==> x in t.active[k].queue && x != p
    ensures LevelsOk(c, Left(c, t, k, q, ps))
  {
    RefillLevels(c, t.procs, ps);
    RefillSized(c, t, ps);
    assert ActiveOk(c, t.procs, Level(t.active[k].ticksLeft, q), k);
  }

  lemma MoversAll(c: Config, t: Table, p: nat, k: nat)
    requires Returning(c, t, p, k)
    ensures multiset(Movers(t.procs, t.active[k].queue, p)) == multiset(t.active[k].queue)
    ensures forall i :: 0 <= i < |Movers(t.procs, t.active[k].queue, p)| ==>
      Movers(t.procs, t.active[k].queue, p)[i] in t.active[k].queue
  {
    LeavesOnce(c, t, p, k);
    var movers := Movers(t.procs, t.active[k].queue, p);
    assert multiset(movers) == multiset(t.active[k].queue);
    forall i | 0 <= i < |movers| ensures movers[i] in t.active[k].queue { assert movers[i] in multiset(movers); }
  }

  lemma NotMoving(c: Config, t: Table, p: nat, k: nat, y: nat)
    requires Returning(c, t, p, k) && y !in t.active[k].queue
    ensures y !in Movers(t.procs, t.active[k].queue, p)
  {
    MoversAll(c, t, p, k);
  }

  lemma DepleteStart(c: Config, t: Table, p: nat, k: nat)
    requires Returning(c, t, p, k) && t.active[k].ticksLeft <= 0
    ensures Core(c, Left(c, t, k, [], t.active[k].queue), Movers(t.procs, t.active[k].queue, p))
    ensures forall i :: 0 <= i < |Movers(t.procs, t.active[k].queue, p)| ==>
      Left(c, t, k, [], t.active[k].queue).procs[Movers(t.procs, t.active[k].queue, p)[i]].ticksLeft == c.procQuantum
  {
    var q := t.active[k].queue;
    MoversAll(c, t, p, k);
    RefillAt(c, t.procs, q);
    LeftLevels(c, t, p, k, [], q);
    TakeOutPartition(c, t, k, [], q, Movers(t.procs, q, p));
  }

  lemma DepleteCore(c: Config, t: Table, p: nat, k: nat)
    requires Returning(c, t, p, k) && t.active[k].ticksLeft <= 0
    ensures Core(c, Deplete(c, t, p, k), [])
  {
    DepleteStart(c, t, p, k);
    PlaceAllCore(c, Left(c, t, k, [], t.active[k].queue), Movers(t.procs, t.active[k].queue, p), k + 1);
  }

  /** What is left after the process that ran is taken out of its queue. */
  ghost function TakenOut(c: Config, t: Table, p: nat, k: nat): Table
    requires p < |t.procs| && k < |t.active|
  {
    Left(c, t, k, Without(t.active[k].queue, p), Spent(t, p))
  }

  lemma RequeueLive(c: Config, t: Table, p: nat, k: nat)
    requires Returning(c, t, p, k) && t.active[k].ticksLeft > 0 && t.procs[p].state != ZOMBIE
    ensures Core(c, TakenOut(c, t, p, k), [p])
  {
    var q := Without(t.active[k].queue, p);
    LeavesOnce(c, t, p, k);
    WithoutSlots(t.active[k].queue, p, c.nproc);
    LeftLevels(c, t, p, k, q, Spent(t, p));
    TakeOutPartition(c, t, k, q, Spent(t, p), [p]);
  }

  /** A process with quantum left finds its own level open; one without is refilled. */
  lemma RequeueReady(c: Config, t: Table, p: nat, k: nat)
    requires Returning(c, t, p, k) && t.active[k].ticksLeft > 0 && t.procs[p].state != ZOMBIE
    ensures Ready(c, TakenOut(c, t, p, k), p, k + |Spent(t, p)|)
  {
    var u := TakenOut(c, t, p, k);
    RefillAt(c, t.procs, Spent(t, p));
    if Spent(t, p) == [] {
      assert u.active[k].ticksLeft > 0 && Max(k, u.procs[p].defaultLevel) == k;
    }
  }

  lemma RequeueZombie(c: Config, t: Table, p: nat, k: nat)
    requires Returning(c, t, p, k) && t.active[k].ticksLeft > 0 && t.procs[p].state == ZOMBIE
    ensures Core(c, Requeue(c, t, p, k), [])
  {
    LeavesOnce(c, t, p, k);
    LeftLevels(c, t, p, k, t.active[k].queue, Spent(t, p));
    TakeOutPartition(c, t, k, t.active[k].queue, Spent(t, p), []);
  }

  lemma RequeueLiveCore(c: Config, t: Table, p: nat, k: nat)
    requires Returning(c, t, p, k) && t.active[k].ticksLeft > 0 && t.procs[p].state != ZOMBIE
    ensures Sized(c, TakenOut(c, t, p, k)) && Core(c, Place(c, TakenOut(c, t, p, k), p, k + |Spent(t, p)|), [])
  {
    hide TakenOut, Place, Partition, ActiveOk, ExpiredOk;
    RequeueLive(c, t, p, k);
    RequeueReady(c, t, p, k);
    PlaceOneCore(c, TakenOut(c, t, p, k), p, k + |Spent(t, p)|);
  }

  lemma RequeueCore(c: Config, t: Table, p: nat, k: nat)
    requires Returning(c, t, p, k) && t.active[k].ticksLeft > 0
    ensures Core(c, Requeue(c, t, p, k), [])
  {
    if t.procs[p].state == ZOMBIE {
      RequeueZombie(c, t, p, k);
    } else {
      RequeueLiveCore(c, t, p, k);
    }
  }

  lemma HandBackCore(c: Config, t: Table, p: nat, k: nat)
    requires Returning(c, t, p, k)
    ensures Core(c, HandBack(c, t, p, k), [])
  {
    if t.active[k].ticksLeft <= 0 {
      DepleteCore(c, t, p, k);
    } else {
      RequeueCore(c, t, p, k);
    }
  }

  lemma {:induction false} PlaceAllProcs(c: Config, t: Table, ps: seq<nat>, floor: nat)
    requires Sized(c, t) && Slots(ps, c.nproc)
    ensures PlaceAll(c, t, ps, floor).procs == t.procs
    decreases |ps|
  {
    if ps == [] {
    } else {
      PlaceAllProcs(c, Place(c, t, ps[0], floor), ps[1..], floor);
    }
  }

  /** Handing back changes nothing of a process but its quantum. */
  lemma HandBackProcs(c: Config, t: Table, p: nat, k: nat)
    requires WellFormed(c, t) && p < c.nproc && k < c.levels
    ensures HandBack(c, t, p, k).procs ==
      Refill(c, t.procs, if t.active[k].ticksLeft <= 0 then t.active[k].queue else Spent(t, p))
  {
    if t.active[k].ticksLeft <= 0 {
      RefillSized(c, t, t.active[k].queue);
      PlaceAllProcs(c, Left(c, t, k, [], t.active[k].queue), Movers(t.procs, t.active[k].queue, p), k + 1);
    }
  }

  // ---------- families ----------

  /** Families stay in order when nobody dies, no zombie appears, new members have a live parent,
      and whoever goes to sleep in `wait` does so on its own address and without a zombie child. */
  lemma FamilyStep(c: Config, procs: seq<Proc>, r: seq<Proc>, init: nat)
    requires FamilyOk(c, procs, init) && |r| == |procs|
    requires forall i :: 0 <= i < |r| && Live(procs[i]) ==> Live(r[i])
    requires forall i :: 0 <= i < |r| && r[i].state == ZOMBIE ==> procs[i].state == ZOMBIE
    requires forall i {:trigger r[i].parent} :: 0 <= i < |r| && (Live(r[i]) || r[i].state == ZOMBIE) ==>
      if Live(procs[i]) || procs[i].state == ZOMBIE then r[i].parent == procs[i].parent
      else r[i].parent.Some? && r[i].parent.value != i && IsLive(procs, r[i].parent.value)
    requires forall i :: 0 <= i < |r| && r[i].state == SLEEPING && r[i].chan.ProcAddr? ==>
      || (procs[i].state == SLEEPING && procs[i].chan == r[i].chan)
      || (r[i].chan.slot == i && !HasZombieChild(procs, i))
    requires EmbryosOk(c, r)
    ensures FamilyOk(c, r, init)
  {
    forall i | HasZombieChild(r, i) ensures HasZombieChild(procs, i) {
      var j :| 0 <= j < |r| && ZombieChild(r, i, j);
      assert ZombieChild(procs, i, j);
    }
    forall i | 0 <= i < |r| && i != init && (Live(r[i]) || r[i].state == ZOMBIE) ensures HasLiveParent(r, i) {
      assert Live(procs[i]) || procs[i].state == ZOMBIE ==> HasLiveParent(procs, i);
    }
  }

  lemma RefillFamily(c: Config, procs: seq<Proc>, ps: seq<nat>, init: nat)
    requires FamilyOk(c, procs, init) && Slots(ps, |procs|)
    ensures FamilyOk(c, Refill(c, procs, ps), init)
  {
    RefillAt(c, procs, ps);
    FamilyStep(c, procs, Refill(c, procs, ps), init);
  }

  /** Handing back keeps everything said about states and families. */
  lemma HandBackInv(c: Config, t: Table, p: nat, k: nat, init: nat)
    requires Returning(c, t, p, k)
    requires forall i :: 0 <= i < |t.procs| ==> t.procs[i].state != RUNNING
    requires FamilyOk(c, t.procs, init)
    ensures Core(c, HandBack(c, t, p, k), []) && CpuOk(HandBack(c, t, p, k), Scheduling)
    ensures FamilyOk(c, HandBack(c, t, p, k).procs, init)
  {
    HandBackCore(c, t, p, k);
    HandBackProcs(c, t, p, k);
    var ps := if t.active[k].ticksLeft <= 0 then t.active[k].queue else Spent(t, p);
    RefillFamily(c, t.procs, ps, init);
    RefillAt(c, t.procs, ps);
  }

  // ---------- steps that leave the queues alone ----------

  /** Changing processes without touching who is live, or a live one's quantum or default level. */
  lemma ProcsOnly(c: Config, t: Table, procs: seq<Proc>)
    requires Core(c, t, []) && |procs| == |t.procs|
    requires forall i :: 0 <= i < |procs| ==> Live(procs[i]) == Live(t.procs[i]) && procs[i].defaultLevel < c.levels
    requires forall i :: 0 <= i < |procs| && Live(procs[i]) ==>
      procs[i].ticksLeft == t.procs[i].ticksLeft && procs[i].defaultLevel == t.procs[i].defaultLevel
    ensures Core(c, t.(procs := procs), [])
  {
    var u := t.(procs := procs);
    forall k | 0 <= k < c.levels ensures ActiveOk(c, procs, t.active[k], k) && ExpiredOk(c, procs, t.expired[k], k) {
      forall p | p in t.active[k].queue ensures IsLive(t.procs, p) { Queued(t, [], t.active, k, p); }
      forall p | p in t.expired[k].queue ensures IsLive(t.procs, p) { Queued(t, [], t.expired, k, p); }
      assert ActiveOk(c, t.procs, t.active[k], k) && ExpiredOk(c, t.procs, t.expired[k], k);
    }
    assert forall p: nat :: IsLive(u.procs, p) == IsLive(t.procs, p);
  }

  lemma WakeFamily(c: Config, procs: seq<Proc>, chan: Chan, init: nat)
    requires FamilyOk(c, procs, init)
    ensures FamilyOk(c, Wake(procs, chan), init)
  {
    FamilyStep(c, procs, Wake(procs, chan), init);
  }

  lemma WakeupInv(c: Config, s: State, chan: Chan)
    requires Inv(c, s)
    ensures Inv(c, s.(table := s.table.(procs := Wake(s.table.procs, chan))))
  {
    ProcsOnly(c, s.table, Wake(s.table.procs, chan));
    WakeFamily(c, s.table.procs, chan, s.initproc);
  }

  /** Changing one slot that is neither a live process nor a zombie before or after. */
  lemma IdleSlotFamily(c: Config, procs: seq<Proc>, i: nat, p: Proc, init: nat)
    requires FamilyOk(c, procs, init) && i < |procs|
    requires !Live(procs[i]) && !Live(p) && p.state != ZOMBIE
    requires p.state == EMBRYO ==> p.ticksLeft == c.procQuantum
    ensures FamilyOk(c, procs[i := p], init)
  {
    FamilyStep(c, procs, procs[i := p], init);
  }

  /** A slot that holds no live process may be rewritten freely, short of a live process or zombie. */
  lemma IdleSlotInv(c: Config, s: State, i: nat, p: Proc, nextpid: nat)
    requires Inv(c, s) && i < c.nproc && !Live(s.table.procs[i])
    requires !Live(p) && p.state != ZOMBIE && p.defaultLevel < c.levels
    requires p.state == EMBRYO ==> p.ticksLeft == c.procQuantum
    ensures Inv(c, s.(table := WithProc(s.table, i, p), nextpid := nextpid))
  {
    ProcsOnly(c, s.table, s.table.procs[i := p]);
    IdleSlotFamily(c, s.table.procs, i, p, s.initproc);
  }

  lemma KillInv(c: Config, s: State, pid: nat)
    requires Inv(c, s)
    ensures Inv(c, DoKill(s, pid))
  {
    match FirstSlot(s.table.procs, (x: Proc) => x.pid == pid, 0)
    case None =>
    case Some(i) =>
      ProcsOnly(c, s.table, s.table.procs[i := Killed(s.table.procs[i])]);
      FamilyStep(c, s.table.procs, s.table.procs[i := Killed(s.table.procs[i])], s.initproc);
  }

  lemma DispatchInv(c: Config, s: State, k: nat, i: nat)
    requires Inv(c, s) && s.cpu == Scheduling && k < c.levels && i < |s.table.active[k].queue|
    requires s.table.procs[s.table.active[k].queue[i]].state == RUNNABLE
    ensures Inv(c, Dispatch(s, s.table.active[k].queue[i], k))
  {
    var procs, p := s.table.procs, s.table.active[k].queue[i];
    var r := procs[p := procs[p].(state := RUNNING, chan := NoChan)];
    ProcsOnly(c, s.table, r);
    FamilyStep(c, procs, r, s.initproc);
  }

  // ---------- steps by which the running process leaves the CPU ----------

  /** The table in which the running process has a new state, perhaps after a tick. */
  lemma RunningReturns(c: Config, s: State, u: Table)
    requires Inv(c, s) && s.cpu.Running? && |u.procs| == c.nproc && |u.active| == c.levels
    requires var p := u.procs[s.cpu.proc];
      && u.procs == s.table.procs[s.cpu.proc := p]
      && (p.state == SLEEPING || p.state == RUNNABLE)
      && p.defaultLevel == s.table.procs[s.cpu.proc].defaultLevel && 0 <= p.ticksLeft <= c.procQuantum
    requires var l := u.active[s.cpu.level];
      && u.active == s.table.active[s.cpu.level := l] && l.queue == s.table.active[s.cpu.level].queue
      && 0 <= l.ticksLeft <= c.levelQuantum
    requires u.expired == s.table.expired
    ensures Returning(c, u, s.cpu.proc, s.cpu.level)
  {
    var t, x, k := s.table, s.cpu.proc, s.cpu.level;
    assert WellFormed(c, u);
    forall y: nat
      ensures Count(u.active, y) + Count(u.expired, y) + multiset([])[y] == if IsLive(u.procs, y) then 1 else 0
    {
      CountUpdate(t.active, k, u.active[k], y);
      assert IsLive(u.procs, y) == IsLive(t.procs, y);
      assert Count(t.active, y) + Count(t.expired, y) + multiset([])[y] == if IsLive(t.procs, y) then 1 else 0;
    }
    OnlyHere(c, s);
    forall j | 0 <= j < c.levels && j != k ensures ActiveOk(c, u.procs, u.active[j], j) {
      assert ActiveOk(c, t.procs, t.active[j], j);
    }
    forall j | 0 <= j < c.levels ensures ExpiredOk(c, u.procs, u.expired[j], j) {
      assert ExpiredOk(c, t.procs, t.expired[j], j);
    }
    assert ActiveOk(c, t.procs, t.active[k], k);
  }

  /** The running process is in no other queue than the one it was picked from. */
  lemma OnlyHere(c: Config, s: State)
    requires Inv(c, s) && s.cpu.Running?
    ensures forall j :: 0 <= j < c.levels && j != s.cpu.level ==> s.cpu.proc !in s.table.active[j].queue
    ensures forall j :: 0 <= j < c.levels ==> s.cpu.proc !in s.table.expired[j].queue
  {
    var t, p, k := s.table, s.cpu.proc, s.cpu.level;
    assert multiset(t.active[k].queue)[p] > 0;
    CountAtLeast(t.active, k, p);
    forall j | 0 <= j < c.levels && j != k ensures p !in t.active[j].queue {
      TwoLevels(t.active, j, k, p);
    }
    forall j | 0 <= j < c.levels ensures p !in t.expired[j].queue {
      MemberCount(t.expired[j].queue, p);
      CountAtLeast(t.expired, j, p);
    }
  }

  lemma TwoLevels(ls: seq<Level>, j: nat, k: nat, p: nat)
    requires j < |ls| && k < |ls| && j != k && p in ls[k].queue && Count(ls, p) <= 1
    ensures p !in ls[j].queue
  {
    MemberCount(ls[k].queue, p);
    MemberCount(ls[j].queue, p);
    CountUpdate(ls, k, Level(0, []), p);
    CountAtLeast(ls[k := Level(0, [])], j, p);
  }

  /** The running process goes to sleep or becomes RUNNABLE: families are unaffected, provided it
      only sleeps on its own address when it has no zombie child. */
  lemma LeaveFamily(c: Config, procs: seq<Proc>, i: nat, p: Proc, init: nat)
    requires FamilyOk(c, procs, init) && i < |procs| && Live(procs[i]) && Live(p)
    requires p.parent == procs[i].parent
    requires p.state == SLEEPING && p.chan.ProcAddr? ==> p.chan.slot == i && !HasZombieChild(procs, i)
    ensures FamilyOk(c, procs[i := p], init)
  {
    FamilyStep(c, procs, procs[i := p], init);
  }

  lemma LeaveInv(c: Config, s: State, p: Proc)
    requires Inv(c, s) && s.cpu.Running?
    requires p.state == SLEEPING || p.state == RUNNABLE
    requires p.state == SLEEPING && p.chan.ProcAddr? ==>
      p.chan.slot == s.cpu.proc && !HasZombieChild(s.table.procs, s.cpu.proc)
    requires p.(state := RUNNING, chan := NoChan) == s.table.procs[s.cpu.proc].(chan := NoChan)
    ensures CpuInRange(c, s) && Inv(c, Leave(c, s, p))
  {
    var u := WithProc(s.table, s.cpu.proc, p);
    assert ActiveOk(c, s.table.procs, s.table.active[s.cpu.level], s.cpu.level);
    RunningReturns(c, s, u);
    LeaveFamily(c, s.table.procs, s.cpu.proc, p, s.initproc);
    HandBackInv(c, u, s.cpu.proc, s.cpu.level, s.initproc);
  }

  lemma RunningInRange(c: Config, s: State)
    requires Inv(c, s)
    ensures WellFormed(c, s.table) && CpuInRange(c, s)
    ensures s.cpu.Running? ==> var p := s.table.procs[s.cpu.proc];
      && p.state == RUNNING && 0 < p.ticksLeft <= c.procQuantum && p.defaultLevel <= s.cpu.level
      && 0 < s.table.active[s.cpu.level].ticksLeft <= c.levelQuantum
  {
    if s.cpu.Running? { assert ActiveOk(c, s.table.procs, s.table.active[s.cpu.level], s.cpu.level); }
  }

  /** The table after a tick and the forced yield, before the scheduler looks at it. */
  ghost function Ticked(s: State): Table
    requires s.cpu.Running? && s.cpu.proc < |s.table.procs| && s.cpu.level < |s.table.active|
  {
    var u := Charge(s.table, s.cpu.proc, s.cpu.level);
    WithProc(u, s.cpu.proc, u.procs[s.cpu.proc].(state := RUNNABLE))
  }

  lemma TickedReturns(c: Config, s: State)
    requires Inv(c, s) && s.cpu.Running?
    ensures Returning(c, Ticked(s), s.cpu.proc, s.cpu.level)
    ensures FamilyOk(c, Ticked(s).procs, s.initproc)
    ensures forall i :: 0 <= i < |Ticked(s).procs| ==> Ticked(s).procs[i].state != RUNNING
  {
    RunningInRange(c, s);
    var u := Ticked(s);
    assert u.procs == s.table.procs[s.cpu.proc := u.procs[s.cpu.proc]];
    RunningReturns(c, s, u);
    LeaveFamily(c, s.table.procs, s.cpu.proc, u.procs[s.cpu.proc], s.initproc);
  }

  lemma ChargeWellFormed(c: Config, t: Table, p: nat, k: nat)
    requires WellFormed(c, t) && p < c.nproc && k < c.levels
    ensures WellFormed(c, Charge(t, p, k))
  {
    assert Sized(c, Charge(t, p, k));
  }

  lemma TickYieldInv(c: Config, s: State)
    requires Inv(c, s) && s.cpu.Running? && CpuInRange(c, s)
    requires WellFormed(c, Charge(s.table, s.cpu.proc, s.cpu.level))
    ensures Inv(c, DoYield(c, s.(table := Charge(s.table, s.cpu.proc, s.cpu.level))))
  {
    TickedReturns(c, s);
    HandBackInv(c, Ticked(s), s.cpu.proc, s.cpu.level, s.initproc);
  }

  lemma TickStayInv(c: Config, s: State)
    requires Inv(c, s) && s.cpu.Running?
    requires s.table.procs[s.cpu.proc].ticksLeft > 1 && s.table.active[s.cpu.level].ticksLeft > 1
    ensures Inv(c, s.(table := Charge(s.table, s.cpu.proc, s.cpu.level)))
  {
    RunningInRange(c, s);
    TickedReturns(c, s);
    var p, k, u, v := s.cpu.proc, s.cpu.level, Charge(s.table, s.cpu.proc, s.cpu.level), Ticked(s);
    assert ActiveOk(c, v.procs, v.active[k], k);
    assert u == v.(procs := u.procs);
    ProcsOnly(c, v, u.procs);
    LeaveFamily(c, s.table.procs, p, u.procs[p], s.initproc);
  }

  lemma TickInv(c: Config, s: State)
    requires Inv(c, s) && s.cpu.Running?
    ensures WellFormed(c, s.table) && CpuInRange(c, s) && Inv(c, DoTick(c, s))
  {
    RunningInRange(c, s);
    ChargeWellFormed(c, s.table, s.cpu.proc, s.cpu.level);
    TickYieldInv(c, s);
    if s.table.procs[s.cpu.proc].ticksLeft > 1 && s.table.active[s.cpu.level].ticksLeft > 1 { TickStayInv(c, s); }
  }

  lemma WaitInv(c: Config, s: State)
    requires Inv(c, s) && s.cpu.Running?
    ensures WellFormed(c, s.table) && CpuInRange(c, s) && Inv(c, DoWait(c, s))
  {
    RunningInRange(c, s);
    var procs, p := s.table.procs, s.cpu.proc;
    match ZombieOf(procs, p)
    case Some(i) =>
      IdleSlotInv(c, s, i, Reaped(procs[i]), s.nextpid);
    case None =>
      assert forall j :: !ZombieChild(procs, p, j);
      LeaveInv(c, s, procs[p].(state := SLEEPING, chan := ProcAddr(p)));
  }

  // ---------- fork, exit, swap ----------

  lemma ForkFamily(c: Config, procs: seq<Proc>, slot: nat, p: Proc, init: nat)
    requires FamilyOk(c, procs, init) && slot < |procs| && procs[slot].state == EMBRYO
    requires p.state == RUNNABLE && p.parent.Some? && p.parent.value != slot && IsLive(procs, p.parent.value)
    ensures FamilyOk(c, procs[slot := p], init)
  {
    FamilyStep(c, procs, procs[slot := p], init);
  }

  /** A new live process in a slot that was not live is the only one missing from the queues. */
  lemma NewProcCore(c: Config, t: Table, slot: nat, p: Proc)
    requires Core(c, t, []) && slot < c.nproc && !Live(t.procs[slot]) && Live(p) && p.defaultLevel < c.levels
    ensures Core(c, WithProc(t, slot, p), [slot])
  {
    var u := WithProc(t, slot, p);
    forall x: nat
      ensures Count(u.active, x) + Count(u.expired, x) + multiset([slot])[x] == if IsLive(u.procs, x) then 1 else 0
    {
      assert Count(t.active, x) + Count(t.expired, x) + multiset([])[x] == if IsLive(t.procs, x) then 1 else 0;
    }
    forall k | 0 <= k < c.levels ensures ActiveOk(c, u.procs, u.active[k], k) && ExpiredOk(c, u.procs, u.expired[k], k) {
      forall x | x in t.active[k].queue ensures IsLive(t.procs, x) { Queued(t, [], t.active, k, x); }
      forall x | x in t.expired[k].queue ensures IsLive(t.procs, x) { Queued(t, [], t.expired, k, x); }
      assert ActiveOk(c, t.procs, t.active[k], k) && ExpiredOk(c, t.procs, t.expired[k], k);
    }
    assert WellFormed(c, u);
  }

  lemma PlaceCpu(c: Config, t: Table, p: nat, floor: nat, cpu: Cpu)
    requires Sized(c, t) && p < c.nproc && CpuOk(t, cpu)
    ensures CpuOk(Place(c, t, p, floor), cpu)
  {
  }

  lemma ForkCommitInv(c: Config, s: State, slot: nat, level: nat)
    requires Inv(c, s) && s.cpu.Running? && slot < c.nproc && s.table.procs[slot].state == EMBRYO && level < c.levels
    ensures Inv(c, DoForkCommit(c, s, slot, level))
  {
    RunningInRange(c, s);
    var child := s.table.procs[slot].(parent := Some(s.cpu.proc), defaultLevel := level, state := RUNNABLE);
    var t := WithProc(s.table, slot, child);
    NewProcCore(c, s.table, slot, child);
    ForkFamily(c, s.table.procs, slot, child, s.initproc);
    PlaceOneCore(c, t, slot, level);
    PlaceCpu(c, t, slot, level, s.cpu);
  }

  lemma AdoptFamily(c: Config, procs: seq<Proc>, p: nat, init: nat)
    requires FamilyOk(c, procs, init) && p != init
    requires HasZombieChild(procs, p) ==> forall i :: 0 <= i < |procs| && procs[i].state == SLEEPING ==> procs[i].chan != ProcAddr(init)
    ensures FamilyOk(c, Adopt(procs, p, init), init)
  {
    var r := Adopt(procs, p, init);
    forall x | x != init && HasZombieChild(r, x) ensures HasZombieChild(procs, x) {
      var j :| 0 <= j < |r| && ZombieChild(r, x, j);
      assert ZombieChild(procs, x, j);
    }
    if HasZombieChild(r, init) && !HasZombieChild(procs, p) {
      var j :| 0 <= j < |r| && ZombieChild(r, init, j);
      assert !ZombieChild(procs, p, j);
      assert ZombieChild(procs, init, j);
    }
    forall i | 0 <= i < |r| && i != init && (Live(r[i]) || r[i].state == ZOMBIE) ensures HasLiveParent(r, i) {
      assert HasLiveParent(procs, i);
    }
  }

  /** Waking everyone on a channel, whoever was to be woken there first. */
  lemma WakeZombies(procs: seq<Proc>, chan: Chan, x: nat)
    ensures HasZombieChild(Wake(procs, chan), x) <==> HasZombieChild(procs, x)
  {
    if HasZombieChild(procs, x) {
      var j :| 0 <= j < |procs| && ZombieChild(procs, x, j);
      assert ZombieChild(Wake(procs, chan), x, j);
    }
    if HasZombieChild(Wake(procs, chan), x) {
      var j :| 0 <= j < |procs| && ZombieChild(Wake(procs, chan), x, j);
      assert ZombieChild(procs, x, j);
    }
  }

  /** Waking commutes with adoption. */
  lemma WakeAdopt(procs: seq<Proc>, p: nat, init: nat, chan: Chan)
    ensures Wake(Adopt(procs, p, init), chan) == Adopt(Wake(procs, chan), p, init)
  {
  }

  /** After the first part of `exit` the families are in order, nobody has `p` as parent and its
      own parent is awake. */
  lemma ExitFamilyOk(c: Config, procs: seq<Proc>, p: nat, init: nat)
    requires FamilyOk(c, procs, init) && IsLive(procs, p) && p != init
    ensures FamilyOk(c, ExitFamily(procs, p, init), init)
  {
    var woken := Wake(procs, ChanOf(procs[p].parent));
    WakeFamily(c, procs, ChanOf(procs[p].parent), init);
    if HasZombieChild(woken, p) {
      WakeAdopt(woken, p, init, ProcAddr(init));
      WakeFamily(c, woken, ProcAddr(init), init);
      WakeZombies(woken, ProcAddr(init), p);
      AdoptFamily(c, Wake(woken, ProcAddr(init)), p, init);
    } else {
      AdoptFamily(c, woken, p, init);
    }
  }

  lemma ExitFamilyWakes(c: Config, procs: seq<Proc>, p: nat, init: nat)
    requires FamilyOk(c, procs, init) && IsLive(procs, p) && p != init
    ensures var r := ExitFamily(procs, p, init);
      && r[p].parent == procs[p].parent && Live(r[p])
      && (forall i :: 0 <= i < |r| ==> r[i].parent != Some(p))
      && (forall i :: 0 <= i < |r| && r[i].state == SLEEPING ==> r[i].chan != ChanOf(procs[p].parent))
  {
    assert HasLiveParent(procs, p);
  }

  lemma ZombieFamily(c: Config, procs: seq<Proc>, p: nat, init: nat)
    requires FamilyOk(c, procs, init) && IsLive(procs, p) && p != init
    requires forall i :: 0 <= i < |procs| ==> procs[i].parent != Some(p)
    requires forall i :: 0 <= i < |procs| && procs[i].state == SLEEPING ==> procs[i].chan != ChanOf(procs[p].parent)
    ensures FamilyOk(c, procs[p := procs[p].(state := ZOMBIE)], init)
  {
    var r := procs[p := procs[p].(state := ZOMBIE)];
    forall i | 0 <= i < |r| && r[i].state == SLEEPING && r[i].chan == ProcAddr(i) ensures !HasZombieChild(r, i) {
      assert procs[i].state == SLEEPING && !HasZombieChild(procs, i);
      forall j | 0 <= j < |r| ensures !ZombieChild(r, i, j) {
        assert !ZombieChild(procs, i, j);
      }
    }
    forall i | 0 <= i < |r| && i != init && (Live(r[i]) || r[i].state == ZOMBIE) ensures HasLiveParent(r, i) {
      assert HasLiveParent(procs, i);
    }
  }

  lemma ExitPartition(c: Config, t: Table, p: nat, init: nat)
    requires Core(c, t, []) && IsLive(t.procs, p)
    ensures Partition(ExitTable(c, t, p, init), [])
  {
    hide ExitFamily, Count;
    var u := ExitTable(c, t, p, init);
    forall x: nat
      ensures Count(u.active, x) + Count(u.expired, x) + multiset([])[x] == if IsLive(u.procs, x) then 1 else 0
    {
      ExitSlot(c, t, p, init, x);
    }
  }

  /** The exiting process is in no queue any more; every other slot is where it was. */
  lemma ExitSlot(c: Config, t: Table, p: nat, init: nat, x: nat)
    requires Core(c, t, []) && IsLive(t.procs, p)
    ensures var u := ExitTable(c, t, p, init);
      Count(u.active, x) + Count(u.expired, x) == if IsLive(u.procs, x) then 1 else 0
  {
    hide Count;
    CountRemove(t.active, p, c.nproc, x);
    CountRemove(t.expired, p, c.nproc, x);
    CoreSlot(c, t, p);
    CoreSlot(c, t, x);
    assert IsLive(ExitTable(c, t, p, init).procs, x) <==> IsLive(t.procs, x) && x != p;
  }

  lemma CoreSlot(c: Config, t: Table, x: nat)
    requires Core(c, t, [])
    ensures Count(t.active, x) + Count(t.expired, x) == if IsLive(t.procs, x) then 1 else 0
  {
    assert Count(t.active, x) + Count(t.expired, x) + multiset([])[x] == if IsLive(t.procs, x) then 1 else 0;
  }

  lemma WithoutLevel(c: Config, procs: seq<Proc>, r: seq<Proc>, l: Level, k: nat, p: nat)
    requires |r| == |procs|
    requires forall i :: 0 <= i < |r| ==> r[i].ticksLeft == procs[i].ticksLeft && r[i].defaultLevel == procs[i].defaultLevel
    ensures ActiveOk(c, procs, l, k) ==> ActiveOk(c, r, Level(l.ticksLeft, Without(l.queue, p)), k)
    ensures ExpiredOk(c, procs, l, k) ==> ExpiredOk(c, r, Level(l.ticksLeft, Without(l.queue, p)), k)
  {
    WithoutMembers(l.queue, p);
  }

  /** The table after `exit` differs in states and families only. */
  lemma ExitKeeps(c: Config, t: Table, p: nat, init: nat)
    requires WellFormed(c, t) && p < c.nproc
    ensures var r := ExitTable(c, t, p, init).procs;
      && |r| == |t.procs|
      && (forall i :: 0 <= i < |r| ==> r[i].ticksLeft == t.procs[i].ticksLeft && r[i].defaultLevel == t.procs[i].defaultLevel)
      && (forall i :: 0 <= i < |r| && r[i].state == RUNNING ==> t.procs[i].state == RUNNING && i != p)
  {
  }

  lemma ExitLevels(c: Config, t: Table, p: nat, init: nat)
    requires LevelsOk(c, t) && p < c.nproc
    ensures LevelsOk(c, ExitTable(c, t, p, init))
  {
    var u := ExitTable(c, t, p, init);
    ExitKeeps(c, t, p, init);
    forall k | 0 <= k < c.levels ensures ActiveOk(c, u.procs, u.active[k], k) && ExpiredOk(c, u.procs, u.expired[k], k) {
      WithoutLevel(c, t.procs, u.procs, t.active[k], k, p);
      WithoutLevel(c, t.procs, u.procs, t.expired[k], k, p);
    }
    assert WellFormed(c, u);
  }

  /** The table `exit` hands to the scheduler. */
  lemma ExitReturns(c: Config, s: State)
    requires Inv(c, s) && s.cpu.Running? && s.cpu.proc != s.initproc && CpuInRange(c, s)
    ensures Returning(c, ExitTable(c, s.table, s.cpu.proc, s.initproc), s.cpu.proc, s.cpu.level)
  {
    ExitPartition(c, s.table, s.cpu.proc, s.initproc);
    ExitLevels(c, s.table, s.cpu.proc, s.initproc);
    ReturningZombie(c, ExitTable(c, s.table, s.cpu.proc, s.initproc), s.cpu.proc, s.cpu.level);
  }

  lemma ExitTableFamily(c: Config, t: Table, p: nat, init: nat)
    requires WellFormed(c, t) && FamilyOk(c, t.procs, init) && IsLive(t.procs, p) && p != init
    ensures FamilyOk(c, ExitTable(c, t, p, init).procs, init)
  {
    ExitFamilyOk(c, t.procs, p, init);
    ExitFamilyWakes(c, t.procs, p, init);
    ZombieFamily(c, ExitFamily(t.procs, p, init), p, init);
  }

  lemma ExitInv(c: Config, s: State)
    requires Inv(c, s) && s.cpu.Running? && s.cpu.proc != s.initproc
    ensures WellFormed(c, s.table) && CpuInRange(c, s) && Inv(c, DoExit(c, s))
  {
    RunningInRange(c, s);
    ExitReturns(c, s);
    ExitKeeps(c, s.table, s.cpu.proc, s.initproc);
    ExitTableFamily(c, s.table, s.cpu.proc, s.initproc);
    HandBackInv(c, ExitTable(c, s.table, s.cpu.proc, s.initproc), s.cpu.proc, s.cpu.level, s.initproc);
  }

  lemma ReturningZombie(c: Config, t: Table, p: nat, k: nat)
    requires Core(c, t, []) && p < c.nproc && k < c.levels && t.procs[p].state == ZOMBIE
    ensures Returning(c, t, p, k)
  {
    assert ActiveOk(c, t.procs, t.active[k], k);
  }

  lemma TradedLevels(c: Config, t: Table)
    requires LevelsOk(c, t) && Slots(Flat(t.active), c.nproc)
    ensures LevelsOk(c, Traded(c, t))
  {
    RefillSized(c, t, Flat(t.active));
    var u := Traded(c, t);
    RefillLevels(c, t.procs, Flat(t.active));
    forall k | 0 <= k < c.levels ensures ActiveOk(c, u.procs, u.active[k], k) {
      assert ExpiredOk(c, t.procs, t.expired[k], k);
      assert ExpiredOk(c, u.procs, t.expired[k], k);
    }
    assert WellFormed(c, u);
  }

  lemma TradedPartition(c: Config, t: Table)
    requires Partition(t, []) && Slots(Flat(t.active), |t.procs|)
    ensures Partition(Traded(c, t), Flat(t.active))
  {
    RefillAt(c, t.procs, Flat(t.active));
    var u := Traded(c, t);
    forall x: nat
      ensures Count(u.active, x) + Count(u.expired, x) + multiset(Flat(t.active))[x] == if IsLive(u.procs, x) then 1 else 0
    {
      CountFlat(t.active, x);
      CountEmpty(u.expired, x);
      assert Count(t.active, x) + Count(t.expired, x) + multiset([])[x] == if IsLive(t.procs, x) then 1 else 0;
      assert IsLive(u.procs, x) == IsLive(t.procs, x);
    }
  }

  lemma SwapCore(c: Config, t: Table)
    requires Core(c, t, [])
    ensures Core(c, Swap(c, t), []) && Slots(Flat(t.active), c.nproc)
    ensures Swap(c, t).procs == Refill(c, t.procs, Flat(t.active))
  {
    FlatSlots(t.active, c.nproc);
    RefillAt(c, t.procs, Flat(t.active));
    TradedLevels(c, t);
    TradedPartition(c, t);
    PlaceAllCore(c, Traded(c, t), Flat(t.active), 0);
    PlaceAllProcs(c, Traded(c, t), Flat(t.active), 0);
  }

  lemma ScheduleInv(c: Config, s: State)
    requires Inv(c, s) && s.cpu == Scheduling
    ensures Inv(c, DoSchedule(c, s))
  {
    match Pick(s.table.procs, s.table.active, 0)
    case Some((k, i)) => DispatchInv(c, s, k, i);
    case None =>
      SwapCore(c, s.table);
      RefillFamily(c, s.table.procs, Flat(s.table.active), s.initproc);
      RefillAt(c, s.table.procs, Flat(s.table.active));
  }

  // ---------- every reachable state ----------

  lemma BootPartition(c: Config)
    ensures Partition(Boot(c).table, [])
  {
    var t := Boot(c).table;
    var empty := seq(c.levels, k => Level(c.levelQuantum, []));
    assert t.expired == empty;
    assert forall k :: 0 <= k < c.levels ==> t.active[k] == Append(empty, c.startingLevel, 0)[k];
    assert t.active == Append(empty, c.startingLevel, 0);
    forall x: nat
      ensures Count(t.active, x) + Count(t.expired, x) + multiset([])[x] == if IsLive(t.procs, x) then 1 else 0
    {
      CountEmpty(empty, x);
      CountAppend(empty, c.startingLevel, 0, x);
    }
  }

  lemma BootLevels(c: Config)
    ensures LevelsOk(c, Boot(c).table)
  {
    var t := Boot(c).table;
    forall k | 0 <= k < c.levels ensures ActiveOk(c, t.procs, t.active[k], k) && ExpiredOk(c, t.procs, t.expired[k], k) { }
    assert WellFormed(c, t);
  }

  lemma BootInv(c: Config)
    ensures Inv(c, Boot(c))
  {
    hide Partition, LevelsOk;
    BootPartition(c);
    BootLevels(c);
    assert forall i, j :: !ZombieChild(Boot(c).table.procs, i, j);
  }

  lemma ForkBeginInv(c: Config, s: State)
    requires Inv(c, s)
    ensures Inv(c, DoForkBegin(c, s))
  {
    match FirstSlot(s.table.procs, (p: Proc) => p.state == UNUSED, 0)
    case None =>
    case Some(i) =>
      IdleSlotInv(c, s, i, s.table.procs[i].(state := EMBRYO, pid := s.nextpid, ticksLeft := c.procQuantum,
                                             defaultLevel := c.startingLevel), s.nextpid + 1);
  }

  lemma ForkAbortInv(c: Config, s: State, i: nat)
    requires Inv(c, s) && i < c.nproc && s.table.procs[i].state == EMBRYO
    ensures Inv(c, s.(table := WithProc(s.table, i, s.table.procs[i].(state := UNUSED))))
  {
    IdleSlotInv(c, s, i, s.table.procs[i].(state := UNUSED), s.nextpid);
  }

  lemma SleepInv(c: Config, s: State, a: nat)
    requires Inv(c, s) && s.cpu.Running? && WellFormed(c, s.table) && CpuInRange(c, s)
    ensures Inv(c, GoToSleep(c, s, Addr(a)))
  {
    LeaveInv(c, s, s.table.procs[s.cpu.proc].(state := SLEEPING, chan := Addr(a)));
  }

  lemma YieldInv(c: Config, s: State)
    requires Inv(c, s) && s.cpu.Running? && WellFormed(c, s.table) && CpuInRange(c, s)
    ensures Inv(c, DoYield(c, s))
  {
    LeaveInv(c, s, s.table.procs[s.cpu.proc].(state := RUNNABLE));
  }

  lemma ProcessStepInv(c: Config, s: State, step: Step)
    requires Inv(c, s) && Next(c, s, step).Ok? && s.cpu.Running?
    requires step.Exit? || step.Wait? || step.Sleep? || step.Yield? || step.Tick?
    ensures Inv(c, Next(c, s, step).next)
  {
    hide Inv, DoTick, DoExit, DoWait, GoToSleep, DoYield;
    RunningInRange(c, s);
    match step
    case Tick => TickInv(c, s);
    case Exit => ExitInv(c, s);
    case Wait => WaitInv(c, s);
    case Sleep(a) => SleepInv(c, s, a);
    case Yield => YieldInv(c, s);
  }

  /** Every step keeps the invariant. */
  lemma NextInv(c: Config, s: State, step: Step)
    requires Inv(c, s) && Next(c, s, step).Ok?
    ensures Inv(c, Next(c, s, step).next)
  {
    match step
    case Schedule => ScheduleInv(c, s);
    case Wakeup(a) => WakeupInv(c, s, Addr(a));
    case ForkBegin => ForkBeginInv(c, s);
    case ForkAbort(i) => ForkAbortInv(c, s, i);
    case ForkCommit(i, level) => ForkCommitInv(c, s, i, level);
    case Kill(pid) => KillInv(c, s, pid);
    case _ => if s.cpu.Running? { ProcessStepInv(c, s, step); }
  }
}
