/**
Which sizes of the log and the cache let every commit go through, given how many clean buffers other
processes hold.
*/
module BufferJam {
  import opened Base
  import opened Journal
  import opened JournalProofs
  import opened JournalFull
  import opened BufferCache
  import opened BufferCommit

  /** Every commit on `nbuf` buffers goes through while others hold at most `h` that are not dirty. */
  ghost predicate AlwaysCommits(g: Geometry, nbuf: nat, h: nat) {
    forall c, s :: Between(g, c, s) && s.phase == Logging(0) && |c.bufs| == nbuf && |CleanHeld(c)| <= h ==>
      Loggable(g, s.lh) && Commit(g, c, s.lh).Ran?
  }

  lemma RoomCommits(g: Geometry, nbuf: nat, h: nat)
    requires Limit(g) + h < nbuf
    ensures AlwaysCommits(g, nbuf, h)
  {
    hide Commit, InvFacts, SoundFacts, Matches, OutsideLog, CleanHeld;
    forall c, s | Between(g, c, s) && s.phase == Logging(0) && |c.bufs| == nbuf && |CleanHeld(c)| <= h
      ensures Loggable(g, s.lh) && Commit(g, c, s.lh).Ran?
    {
      CommitExactly(g, c, s);
    }
  }

  // ---------- a cache without a free buffer ----------

  /** Buffers of the first home blocks: the first `n` are dirty, and `h` more are held. */
  ghost function JamBuf(g: Geometry, n: nat, i: nat): Buf {
    Buf(ROOTDEV, HomeBlock(g, i), true, i < n, if i < n then 0 else 1, Zero(g))
  }

  ghost function Jam(g: Geometry, n: nat, h: nat): Cache {
    Cache(seq(n + h, i requires 0 <= i => JamBuf(g, n, i)), seq(n + h, i requires 0 <= i => i), seq(g.diskBlocks, b => Zero(g)))
  }

  /** The dirty blocks are logged, and the commit begins. */
  ghost function JamState(g: Geometry, n: nat, h: nat): State {
    var c := Jam(g, n, h);
    State(c.disk, Contents(c), Dirty(c), seq(n, i requires 0 <= i => HomeBlock(g, i)), [], true, Logging(0))
  }

  lemma JamSound(g: Geometry, n: nat, h: nat)
    requires Spacious(g, n + h)
    ensures Sound(Jam(g, n, h))
  {
    var c := Jam(g, n, h);
    forall i | 0 <= i < |c.bufs| ensures BufOk(c.bufs[i], c.disk) { HomeBlocks(g, n + h, i); }
    forall i, j | 0 <= i < j < |c.bufs| ensures c.bufs[i].blockno != c.bufs[j].blockno { HomeBlocks(g, n + h, i); }
  }

  lemma JamDirty(g: Geometry, n: nat, h: nat)
    requires Spacious(g, n + h)
    ensures Dirty(Jam(g, n, h)) == Members(JamState(g, n, h).lh)
  {
    hide Slot, Sound;
    var c, lh := Jam(g, n, h), JamState(g, n, h).lh;
    JamSound(g, n, h);
    forall x | x in Members(lh) ensures x in Dirty(c) {
      var i :| 0 <= i < |lh| && lh[i] == x;
      assert c.bufs[i] == JamBuf(g, n, i);
      KeyIs(c, i);
    }
    forall x | x in Dirty(c) ensures x in Members(lh) {
      var k := Slot(c.bufs, x);
      assert c.bufs[k] == JamBuf(g, n, k);
      assert lh[k] == x;
    }
  }

  lemma JamInv(g: Geometry, n: nat, h: nat)
    requires Spacious(g, n + h) && 0 < n <= Limit(g)
    ensures Inv(g, JamState(g, n, h))
  {
    hide Slot, Sound, Dirty;
    var c, s := Jam(g, n, h), JamState(g, n, h);
    JamDirty(g, n, h);
    JamListed(g, n, h);
    JamCache(g, n, h);
    assert Loggable(g, []);
  }

  lemma JamListed(g: Geometry, n: nat, h: nat)
    requires Spacious(g, n + h) && n <= Limit(g)
    ensures Loggable(g, JamState(g, n, h).lh)
  {
    var lh := JamState(g, n, h).lh;
    forall i | 0 <= i < |lh| ensures IsHome(g, lh[i]) { HomeBlocks(g, n + h, i); }
    forall i, j | 0 <= i < j < |lh| ensures lh[i] != lh[j] { HomeBlocks(g, n + h, i); }
  }

  lemma JamCache(g: Geometry, n: nat, h: nat)
    requires Spacious(g, n + h)
    ensures IsDisk(g, JamState(g, n, h).disk) && CacheOk(g, JamState(g, n, h))
  {
    hide Sound;
    var c := Jam(g, n, h);
    forall x | x in Contents(c) ensures |Contents(c)[x]| == g.words && Contents(c)[x] == c.disk[x] {
      assert c.bufs[Slot(c.bufs, x)] == JamBuf(g, n, Slot(c.bufs, x));
    }
  }

  lemma JamHeld(g: Geometry, n: nat, h: nat)
    ensures |CleanHeld(Jam(g, n, h))| == h
  {
    var c, rest := Jam(g, n, h), seq(h, k requires 0 <= k => n + k);
    DistinctCard(rest);
    forall i | i in CleanHeld(c) ensures i in Members(rest) { assert rest[i - n] == i; }
    assert CleanHeld(c) == Members(rest);
  }

  /** A cache in order, on which a commit panics: `n` blocks are logged, and others hold all the rest. */
  lemma Jams(g: Geometry, n: nat, h: nat)
    requires Spacious(g, n + h) && 0 < n <= Limit(g)
    ensures var c, s := Jam(g, n, h), JamState(g, n, h);
      && Between(g, c, s) && s.phase == Logging(0) && |c.bufs| == n + h && |CleanHeld(c)| == h
      && Loggable(g, s.lh) && Commit(g, c, s.lh) == Panicked
  {
    var c, s := Jam(g, n, h), JamState(g, n, h);
    JamSound(g, n, h);
    JamInv(g, n, h);
    JamHeld(g, n, h);
    forall i | 0 <= i < |c.bufs| ensures !InLog(g, c.bufs[i].blockno) { HomeBlocks(g, n + h, i); }
    hide Commit, InvFacts, Sound, CleanHeld, Dirty, Contents;
    CommitExactly(g, c, s);
  }

  /** Every commit goes through exactly if the longest log, and the clean buffers that others may hold
      meanwhile, leave a buffer. */
  lemma AlwaysCommitsExactly(g: Geometry, nbuf: nat, h: nat)
    requires 0 < nbuf && 0 < Limit(g) && Spacious(g, nbuf)
    ensures AlwaysCommits(g, nbuf, h) <==> Limit(g) + h < nbuf
  {
    hide Commit, Between, CleanHeld, Jam, JamState;
    if Limit(g) + h < nbuf {
      RoomCommits(g, nbuf, h);
    } else {
      var n := Min(Limit(g), nbuf);
      Jams(g, n, nbuf - n);
    }
  }

  /** As shipped, with a region of 30 blocks and 30 buffers, that is so exactly if nobody else holds a
      clean buffer. */
  lemma ShippedCommits(h: nat)
    ensures AlwaysCommits(Sizes(2000, 2, 30, 128, 30, 10), 30, h) <==> h == 0
  {
    AlwaysCommitsExactly(Sizes(2000, 2, 30, 128, 30, 10), 30, h);
  }
}
