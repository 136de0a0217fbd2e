/** What one Archive step leaves in the archive (archiveCmd), and the bound that every run keeps. */
module Archiving {
  import opened Base
  import opened SortedSets
  import opened Queues
  import opened Invariant
  import opened Effects
  import opened Runs

  /** `ZRANGE key 0 -10000` is inclusive, so what stays is one short of the nominal maximum. */
  const ARCHIVE_BOUND := 9999

  lemma OrderAcross(z: ZSet, r: seq<string>, k: nat, x: string, y: string)
    requires k <= |r| && InOrder(z, r) && x in r[..k] && y in r[k..]
    ensures Before(z, x, y)
  {
    hide Before;
    var i :| 0 <= i < k && r[..k][i] == x;
    var j :| 0 <= j < |r| - k && r[k..][j] == y;
    assert r[i] == x && r[k + j] == y;
  }

  lemma RankMembers(z: ZSet, k: nat)
    requires k <= |z|
    ensures var kept := z - Elems(Ranked(z)[..k]);
            |kept| == |z| - k && forall y | y in kept :: y in Ranked(z)[k..]
  {
    hide Ranked;
    RankedDrop(z, k);
    assert |Ranked(z - Elems(Ranked(z)[..k]))| == |z| - k;
  }

  /** Dropping the k lowest members leaves the others, all of which rank above those dropped. */
  lemma RankSplit(z: ZSet, k: nat, kept: ZSet)
    requires k <= |z| && kept == z - Elems(Ranked(z)[..k])
    ensures |kept| == |z| - k
    ensures forall x, y | x in Ranked(z)[..k] && y in kept :: Before(z, x, y)
  {
    hide Ranked, Before;
    RankedInOrder(z);
    RankMembers(z, k);
    var r := Ranked(z);
    forall x, y | x in r[..k] && y in kept ensures Before(z, x, y) {
      OrderAcross(z, r, k, x, y);
    }
  }

  lemma ExcessKept(z: ZSet, kept: ZSet)
    requires kept == z - Elems(Excess(z))
    ensures |kept| == (if |z| < MAX_ARCHIVE_SIZE then |z| else ARCHIVE_BOUND)
    ensures forall x, y | x in Excess(z) && y in kept :: Before(z, x, y)
  {
    hide Ranked, Before;
    if |z| < MAX_ARCHIVE_SIZE {
      assert Excess(z) == [] && kept == z;
    } else {
      RankSplit(z, |z| - ARCHIVE_BOUND, kept);
    }
  }

  /**
   Trimming an archive: at most 9999 entries stay, none at or below the cutoff, every entry that
   goes ranks below every one that stays, and nothing goes that age or size does not force out.
   */
  lemma TrimKeepsTheHighest(z: ZSet, cutoff: int)
    ensures var gone := Trimmed(z, cutoff); var kept := z - gone; var recent := z - Stale(z, cutoff);
            && |kept| == (if |recent| < 10000 then |recent| else 9999)
            && (forall x | x in kept :: z[x] > cutoff)
            && (forall x, y | x in gone && y in kept :: Before(z, x, y))
            && (forall x | x in gone :: z[x] <= cutoff || |recent| >= 10000)
  {
    hide Excess, Lex, Trimmed, Stale;
    var recent := z - Stale(z, cutoff);
    var kept := z - Trimmed(z, cutoff);
    TrimmedIs(z, cutoff);
    StaleIs(z, cutoff);
    assert kept == recent - Elems(Excess(recent));
    ExcessKept(recent, kept);
    if |recent| < MAX_ARCHIVE_SIZE { SmallExcess(recent); }
    forall x, y | x in Trimmed(z, cutoff) && y in kept ensures Before(z, x, y) {
      if x !in Stale(z, cutoff) { assert x in Excess(recent) && Before(recent, x, y); }
    }
  }

  lemma StaleIs(z: ZSet, cutoff: int)
    ensures forall x :: x in Stale(z, cutoff) <==> x in z && z[x] <= cutoff
  {
  }

  lemma SmallExcess(z: ZSet)
    requires |z| < MAX_ARCHIVE_SIZE
    ensures Excess(z) == []
  {
  }

  /** With one entry too many, exactly the lowest one goes. */
  lemma OneTooMany(z: ZSet)
    requires |z| == MAX_ARCHIVE_SIZE
    ensures Excess(z) == [First(z)]
  {
    hide Ranked;
    RankedStep(z);
  }

  /** A given entry survives a trim if and only if it is recent and, in a full archive, not the lowest. */
  lemma EntrySurvives(z: ZSet, id: string, cutoff: int)
    requires id in z && |z| <= MAX_ARCHIVE_SIZE
    ensures id !in Trimmed(z, cutoff) <==>
              cutoff < z[id]
              && (|z - Stale(z, cutoff)| < MAX_ARCHIVE_SIZE
                  || exists x | x in z :: x != id && z[x] > cutoff && Before(z, x, id))
  {
    hide Excess, Lex, Trimmed;
    var recent := z - Stale(z, cutoff);
    SubmapSize(recent, z);
    TrimmedIs(z, cutoff);
    if |recent| < MAX_ARCHIVE_SIZE {
      SmallExcess(recent);
    } else {
      OneTooMany(recent);
      if id in recent { LowestOrNot(z, recent, id); }
    }
  }

  lemma LowestOrNot(z: ZSet, recent: ZSet, id: string)
    requires id in recent && recent.Keys <= z.Keys && forall x | x in recent :: recent[x] == z[x]
    ensures id != First(recent) <==> exists x | x in z :: x != id && x in recent && Before(z, x, id)
  {
    var f := First(recent);
    if f == id {
      forall x | x in recent && x != id ensures !Before(z, x, id) {
        assert Before(recent, id, x);
        BeforeTotal(z, x, id);
      }
    } else {
      assert Before(recent, f, id);
    }
  }

  /**
   The task being archived survives its own trimming if and only if it is newer than the cutoff
   and, when the archive is full, some entry that is not too old ranks below it.
   */
  lemma NewEntrySurvives(q: QueueState, name: string, m: TaskMessage, err: string, now: int, cutoff: int)
    requires Inv(q, name) && m.queue == name && m.id in q.active && |q.archived| <= ARCHIVE_BOUND
    ensures var z := q.archived[m.id := Sec(now)];
            m.id in Archive(q, m, err, now, cutoff).q.archived <==>
              cutoff < Sec(now)
              && (|z - Stale(z, cutoff)| < MAX_ARCHIVE_SIZE
                  || exists x | x in q.archived :: q.archived[x] > cutoff && Before(z, x, m.id))
  {
    hide Inv, Excess, Trimmed, Archive, Stale, Lex;
    AtHolds(q, name, m.id, Active);
    assert !At(q, m.id, Archived);
    var z := q.archived[m.id := Sec(now)];
    ArchivedSet(q, name, m, err, now, cutoff);
    EntrySurvives(z, m.id, cutoff);
  }

  lemma TrimmedIs(z: ZSet, cutoff: int)
    ensures Trimmed(z, cutoff) == Stale(z, cutoff) + Elems(Excess(z - Stale(z, cutoff)))
  {
  }

  lemma ArchivedSet(q: QueueState, name: string, m: TaskMessage, err: string, now: int, cutoff: int)
    requires Inv(q, name) && m.queue == name && m.id in q.active
    ensures var z := q.archived[m.id := Sec(now)];
            Archive(q, m, err, now, cutoff).q.archived == z - Trimmed(z, cutoff)
  {
    hide Inv, LRem, Trimmed;
    ReleaseKeeps(q, name, m.id);
  }

  /** Only Archive adds to the archive. */
  lemma ArchiveUntouched(q: QueueState, name: string, c: Cmd)
    requires Inv(q, name) && Addressed(name, c) && !c.CArchive?
    ensures Exec(q, c).q.archived == q.archived
  {
    hide Exec, Inv;
    if c.CDone? || c.CMarkAsComplete? || c.CRequeue? || c.CRetry? {
      EndingArchived(q, c);
    } else {
      OtherArchived(q, c);
    }
  }

  lemma EndingArchived(q: QueueState, c: Cmd)
    requires c.CDone? || c.CMarkAsComplete? || c.CRequeue? || c.CRetry?
    ensures Exec(q, c).q.archived == q.archived
  {
    hide Release, SetMsgState, SetState, Locked;
    ReleaseArchived(q, c.m.id);
  }

  lemma OtherArchived(q: QueueState, c: Cmd)
    requires !EndsAttempt(c)
    ensures Exec(q, c).q.archived == q.archived
  {
    hide Enqueue, EnqueueUnique, Schedule, ScheduleUnique, Dequeue, Forward, DeleteExpired, LeaseExpired, Rescore, HashOf;
    match c
    case CForward(src, now) => ForwardArchived(q, src, now);
    case CDeleteExpired(now, batch) => ExpiryArchived(q, now, batch);
    case CDequeue(now) => DequeueArchived(q, Sec(now + LEASE_DURATION));
    case _ => if Submits(c) { ClientArchived(q, c); }
  }

  lemma ForwardArchived(q: QueueState, src: Source, now: int)
    ensures Forward(q, src, now, FORWARD_BATCH).q.archived == q.archived
  {
    hide ReadyIds, Reverse, MarkPending;
  }

  lemma ExpiryArchived(q: QueueState, now: int, batch: int)
    ensures DeleteExpired(q, now, batch).q.archived == q.archived
  {
    hide ExpiredIds;
  }

  lemma DequeueArchived(q: QueueState, leaseUntil: int)
    ensures Dequeue(q, leaseUntil).q.archived == q.archived
  {
    hide HashOf;
  }

  lemma ClientArchived(q: QueueState, c: Cmd)
    requires Submits(c)
    ensures Exec(q, c).q.archived == q.archived
  {
    hide Locked;
  }

  lemma ReleaseArchived(q: QueueState, id: string)
    ensures Release(q, id).q.archived == q.archived
  {
    hide LRem;
  }

  lemma StepArchiveBound(q: QueueState, name: string, c: Cmd)
    requires Inv(q, name) && Addressed(name, c) && |q.archived| <= ARCHIVE_BOUND
    ensures |Exec(q, c).q.archived| <= ARCHIVE_BOUND
  {
    hide Inv, Exec, Archive, Trimmed;
    if c.CArchive? {
      ExecArchive(q, c);
      AllOrNothing(q, name, c);
      if c.m.id in q.active {
        ArchivedSet(q, name, c.m, c.err, c.now, c.cutoff);
        TrimKeepsTheHighest(q.archived[c.m.id := Sec(c.now)], c.cutoff);
      }
    } else {
      ArchiveUntouched(q, name, c);
    }
  }

  /** In every run the archive holds at most 9999 tasks, one fewer than maxArchiveSize. */
  lemma {:induction false} RunArchiveBound(q: QueueState, name: string, cmds: seq<Cmd>)
    requires Inv(q, name) && AllAddressed(name, cmds) && |q.archived| <= ARCHIVE_BOUND
    ensures |ExecAll(q, cmds).archived| <= 9999
    decreases cmds
  {
    hide Inv, Exec;
    if cmds != [] {
      StepArchiveBound(q, name, cmds[0]);
      StepKeepsInv(q, name, cmds[0]);
      RunArchiveBound(Exec(q, cmds[0]).q, name, cmds[1..]);
    }
  }

  // ---------------------------------------------------------------- a task that its own Archive call trims

  function Bs(n: nat): (s: string)
    ensures |s| == n && forall i | 0 <= i < n :: s[i] == 'b'
  {
    if n == 0 then "" else ['b'] + Bs(n - 1)
  }

  function Peers(n: nat, score: int): ZSet {
    if n == 0 then map[] else Peers(n - 1, score)[Bs(n) := score]
  }

  lemma {:induction false} PeersAre(n: nat, score: int)
    ensures |Peers(n, score)| == n
    ensures forall x | x in Peers(n, score) :: 1 <= |x| <= n && x[0] == 'b' && Peers(n, score)[x] == score
  {
    if n > 0 {
      PeersAre(n - 1, score);
      assert Bs(n) !in Peers(n - 1, score);
      assert Peers(n, score).Keys == Peers(n - 1, score).Keys + {Bs(n)};
    }
  }

  function Demo(name: string, id: string): TaskMessage {
    TaskMessage(id, name, "demo", Nil, 0, 0, "", 0, 1800, 0, "", 0, 0)
  }

  /** Task "a" is active, and the archive holds the given entries. */
  function LastOfMany(name: string, z: ZSet): QueueState {
    EMPTY_QUEUE.(active := ["a"], lease := map["a" := 0], archived := z,
                 tasks := map id | id in z.Keys + {"a"} ::
                   Hash(Some(Demo(name, id)), Some(if id == "a" then Active else Archived), None, None, None))
  }

  lemma LastOfManyInv(name: string, z: ZSet)
    requires forall x | x in z :: |x| >= 1 && x[0] == 'b'
    ensures Inv(LastOfMany(name, z), name) && "a" in LastOfMany(name, z).active
  {
  }

  /**
   9999 tasks have been archived within this second, and the one archived now ranks below them: its
   own call trims it.  It has no place any more, but its hash remains, and so no client can ever
   use the id again.
   */
  lemma SelfTrim(name: string, err: string, now: int, cutoff: int, cmds: seq<Cmd>, c: Cmd) returns (q: QueueState, m: TaskMessage)
    requires cutoff < Sec(now) && AllAddressed(name, cmds)
    requires (c.CEnqueue? || IsUnique(c) || c.CSchedule?) && c.m.id == "a"
    ensures Inv(q, name) && m == Demo(name, "a") && m.id in q.active && |q.archived| == ARCHIVE_BOUND
    ensures Exec(q, CArchive(m, err, now, cutoff)).reply == Ok
    ensures var q' := Exec(q, CArchive(m, err, now, cutoff)).q; Orphan(q', m.id) && Exec(ExecAll(q', cmds), c).reply != Ok
  {
    hide Peers, Inv, Exec, Orphan, ExecAll, AllAddressed, LastOfMany, Stale, Before, Archive;
    m := Demo(name, "a");
    q := Crowd(name, Sec(now), cutoff);
    var a := CArchive(m, err, now, cutoff);
    NewEntrySurvives(q, name, m, err, now, cutoff);
    TrimsItself(q, name, m, err, now, cutoff);
    StepKeepsInv(q, name, a);
    OrphansStay(Exec(q, a).q, name, cmds, m.id, c);
  }

  lemma Crowd(name: string, score: int, cutoff: int) returns (q: QueueState)
    requires cutoff < score
    ensures Inv(q, name) && "a" in q.active && |q.archived| == ARCHIVE_BOUND
    ensures var y := q.archived["a" := score];
            |y - Stale(y, cutoff)| == MAX_ARCHIVE_SIZE && forall x | x in q.archived :: !Before(y, x, "a")
  {
    hide Peers, Inv, Stale, Before;
    var z := Peers(ARCHIVE_BOUND, score);
    PeersAre(ARCHIVE_BOUND, score);
    q := LastOfMany(name, z);
    LastOfManyInv(name, z);
    RanksLast(z, score, cutoff);
  }

  lemma TrimsItself(q: QueueState, name: string, m: TaskMessage, err: string, now: int, cutoff: int)
    requires Inv(q, name) && m.queue == name && m.id in q.active
    requires m.id !in Archive(q, m, err, now, cutoff).q.archived
    ensures var out := Exec(q, CArchive(m, err, now, cutoff)); out.reply == Ok && Orphan(out.q, m.id)
  {
    hide Inv, Exec, Archive, Placed, Trimmed;
    var a := CArchive(m, err, now, cutoff);
    AllOrNothing(q, name, a);
    ExecArchive(q, a);
    ArchiveTarget(q, name, m, err, now, cutoff);
    IsOrphan(Exec(q, a).q, m.id);
  }

  lemma IsOrphan(q: QueueState, id: string)
    requires id in q.tasks && !Placed(q, id)
    ensures Orphan(q, id)
  {
  }

  lemma RanksLast(z: ZSet, score: int, cutoff: int)
    requires |z| == ARCHIVE_BOUND && cutoff < score
    requires forall x | x in z :: |x| >= 1 && x[0] == 'b' && z[x] == score
    ensures var y := z["a" := score];
            && |y - Stale(y, cutoff)| == MAX_ARCHIVE_SIZE
            && forall x | x in z :: !Before(y, x, "a")
  {
    var y := z["a" := score];
    assert y.Keys == z.Keys + {"a"};
    assert y - Stale(y, cutoff) == y;
  }
}
