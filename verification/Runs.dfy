/**
 What holds over every run of broker commands on a queue, whoever issues them and whenever
 workers stop: nothing is lost, completed tasks are retained, unique tasks are unique, and
 pending is a first-in first-out queue.
 */
module Runs {
  import opened Base
  import opened SortedSets
  import opened Queues
  import opened Invariant
  import opened Effects

  function ExecAll(q: QueueState, cmds: seq<Cmd>): QueueState
    decreases cmds
  {
    if cmds == [] then q else ExecAll(Exec(q, cmds[0]).q, cmds[1..])
  }

  ghost predicate AllAddressed(name: string, cmds: seq<Cmd>) {
    forall i | 0 <= i < |cmds| :: Addressed(name, cmds[i])
  }

  lemma {:induction false} RunKeepsInv(q: QueueState, name: string, cmds: seq<Cmd>)
    requires Inv(q, name) && AllAddressed(name, cmds)
    ensures Inv(ExecAll(q, cmds), name)
    decreases cmds
  {
    hide Inv, Exec;
    if cmds != [] {
      StepKeepsInv(q, name, cmds[0]);
      RunKeepsInv(Exec(q, cmds[0]).q, name, cmds[1..]);
    }
  }

  // ---------------------------------------------------------------- conservation

  /** The client call c puts a task under the id. */
  predicate Accepts(q: QueueState, c: Cmd, id: string) {
    && Submits(c)
    && c.m.id == id && Exec(q, c).reply == Ok
  }

  /** The only legitimate ways for an id to leave a queue. */
  predicate Removes(q: QueueState, c: Cmd, id: string) {
    match c
    case CDone(m, _) => m.id == id && id in q.active
    case CArchive(m, _, now, cutoff) => m.id in q.active && id in Trimmed(q.archived[m.id := Sec(now)], cutoff)
    case CDeleteExpired(now, batch) => id in ExpiredIds(q, now, batch)
    case _ => false
  }

  function One(b: bool): int {
    if b then 1 else 0
  }

  function Balance(q: QueueState, cmds: seq<Cmd>, id: string): int
    decreases cmds
  {
    if cmds == [] then 0
    else One(Accepts(q, cmds[0], id)) - One(Removes(q, cmds[0], id)) + Balance(Exec(q, cmds[0]).q, cmds[1..], id)
  }

  lemma FrameConserves(q: QueueState, c: Cmd, id: string)
    requires !Touches(q, c, id)
    ensures Placed(Exec(q, c).q, id) == Placed(q, id) && !Accepts(q, c, id) && !Removes(q, c, id)
  {
    hide Exec, Trimmed, ExpiredIds, ReadyIds;
    StepFrame(q, c, id);
  }

  lemma ClientConserves(q: QueueState, name: string, c: Cmd)
    requires Submits(c)
    requires Inv(q, name) && Addressed(name, c)
    ensures Placed(Exec(q, c).q, c.m.id) == (Placed(q, c.m.id) || Accepts(q, c, c.m.id))
    ensures !(Placed(q, c.m.id) && Accepts(q, c, c.m.id)) && !Removes(q, c, c.m.id)
  {
    hide Inv, Exec;
    ClientTarget(q, name, c);
  }

  lemma WorkerConserves(q: QueueState, name: string, c: Cmd, id: string)
    requires EndsAttempt(c)
    requires Inv(q, name) && Addressed(name, c) && Touches(q, c, id)
    ensures Placed(Exec(q, c).q, id) == (Placed(q, id) && !Removes(q, c, id)) && !Accepts(q, c, id)
    ensures Removes(q, c, id) ==> Placed(q, id)
  {
    hide Inv, Exec, Trimmed;
    AllOrNothing(q, name, c);
    if c.m.id in q.active {
      if c.CArchive? {
        assert Exec(q, c) == Archive(q, c.m, c.err, c.now, c.cutoff) by { ExecArchive(q, c); }
        ArchiveTarget(q, name, c.m, c.err, c.now, c.cutoff);
      } else {
        WorkerTarget(q, name, c);
      }
    }
  }

  lemma BackgroundConserves(q: QueueState, name: string, c: Cmd, id: string)
    requires c.CDequeue? || c.CForward? || c.CDeleteExpired? || c.CExtendLease? || c.CWriteResult?
    requires Inv(q, name) && Touches(q, c, id)
    ensures Placed(Exec(q, c).q, id) == (Placed(q, id) && !Removes(q, c, id)) && !Accepts(q, c, id)
    ensures Removes(q, c, id) ==> Placed(q, id)
  {
    hide Inv, ReadyIds, ExpiredIds, Forward, DeleteExpired;
    match c
    case CDeleteExpired(now, batch) => DeleteExpiredTarget(q, name, now, batch, id);
    case CForward(src, now) => ForwardTarget(q, name, src, now, FORWARD_BATCH, id);
    case _ =>
  }

  lemma StepConserves(q: QueueState, name: string, c: Cmd, id: string)
    requires Inv(q, name) && Addressed(name, c)
    ensures One(Placed(Exec(q, c).q, id)) == One(Placed(q, id)) + One(Accepts(q, c, id)) - One(Removes(q, c, id))
  {
    hide Inv, Exec, Placed, Accepts, Removes;
    if !Touches(q, c, id) {
      FrameConserves(q, c, id);
    } else if Submits(c) {
      ClientConserves(q, name, c);
    } else if EndsAttempt(c) {
      WorkerConserves(q, name, c, id);
    } else {
      BackgroundConserves(q, name, c, id);
    }
  }

  /**
   Over any run, an id is placed as often as it was accepted and not removed: no task is lost and
   none appears from nowhere.  A worker that crashes is a run without its last command.
   */
  lemma {:induction false} NothingLost(q: QueueState, name: string, cmds: seq<Cmd>, id: string)
    requires Inv(q, name) && AllAddressed(name, cmds)
    ensures One(Placed(ExecAll(q, cmds), id)) == One(Placed(q, id)) + Balance(q, cmds, id)
    decreases cmds
  {
    hide Inv, Exec, Placed, Accepts, Removes;
    if cmds != [] {
      StepConserves(q, name, cmds[0], id);
      StepKeepsInv(q, name, cmds[0]);
      NothingLost(Exec(q, cmds[0]).q, name, cmds[1..], id);
    }
  }

  // ---------------------------------------------------------------- retention

  ghost predicate Retained(q: QueueState, id: string, m: TaskMessage, until: int) {
    && id in q.completed && q.completed[id] == until
    && id in q.tasks && q.tasks[id].msg == Some(m) && q.tasks[id].state == Some(Completed)
  }

  lemma StepRetains(q: QueueState, name: string, c: Cmd, id: string, m: TaskMessage, until: int)
    requires Inv(q, name) && Addressed(name, c) && Retained(q, id, m, until)
    requires c.CDeleteExpired? ==> Sec(c.now) < until
    ensures Retained(Exec(q, c).q, id, m, until)
  {
    hide Inv, Exec, Trimmed;
    AtHolds(q, name, id, Completed);
    assert !At(q, id, Pending) && !At(q, id, Active) && !At(q, id, Scheduled) && !At(q, id, Retry) && !At(q, id, Archived);
    if !Touches(q, c, id) {
      StepFrame(q, c, id);
    } else {
      match c
      case CExtendLease(_, _) => QuietStep(q, c);
      case CWriteResult(_, _, _) => QuietStep(q, c);
      case CDone(_, _) => AllOrNothing(q, name, c);
      case CMarkAsComplete(_, _) => AllOrNothing(q, name, c);
      case CRequeue(_, _) => AllOrNothing(q, name, c);
      case CRetry(_, _, _, _, _) => AllOrNothing(q, name, c);
      case CArchive(m', err, now, cutoff) =>
        AllOrNothing(q, name, c);
        if m'.id in q.active { ArchiveTarget(q, name, m', err, now, cutoff); }
      case CForward(src, now) => ForwardTarget(q, name, src, now, FORWARD_BATCH, id);
      case CDequeue(_) =>
      case CDeleteExpired(_, _) =>
      case _ => ClientTarget(q, name, c);
    }
  }

  /** Lease extensions and results leave every place and message alone. */
  lemma QuietStep(q: QueueState, c: Cmd)
    requires c.CExtendLease? || c.CWriteResult?
    ensures var q' := Exec(q, c).q;
            && q' == q.(lease := q'.lease, tasks := q'.tasks)
            && (forall id | id in q.tasks :: id in q'.tasks && q'.tasks[id] == q.tasks[id].(result := q'.tasks[id].result))
  {
  }

  /** From MarkAsComplete until the second CompletedAt + Retention, no run touches the task. */
  lemma {:induction false} RunRetains(q: QueueState, name: string, cmds: seq<Cmd>, id: string, m: TaskMessage, until: int)
    requires Inv(q, name) && AllAddressed(name, cmds) && Retained(q, id, m, until)
    requires forall i | 0 <= i < |cmds| && cmds[i].CDeleteExpired? :: Sec(cmds[i].now) < until
    ensures Retained(ExecAll(q, cmds), id, m, until)
    decreases cmds
  {
    hide Inv, Exec, Retained;
    if cmds != [] {
      StepRetains(q, name, cmds[0], id, m, until);
      StepKeepsInv(q, name, cmds[0]);
      RunRetains(Exec(q, cmds[0]).q, name, cmds[1..], id, m, until);
    }
  }

  lemma CompletedIsRetained(q: QueueState, name: string, m: TaskMessage, now: int, cmds: seq<Cmd>)
    requires Inv(q, name) && m.queue == name && AllAddressed(name, cmds) && m.id in q.active
    requires forall i | 0 <= i < |cmds| && cmds[i].CDeleteExpired? :: Sec(cmds[i].now) < Sec(now) + m.retention
    ensures var m' := m.(completedAt := Sec(now));
            Retained(ExecAll(Exec(q, CMarkAsComplete(m, now)).q, cmds), m.id, m', m'.completedAt + m'.retention)
  {
    hide Inv, Exec;
    var q1 := Exec(q, CMarkAsComplete(m, now)).q;
    StepKeepsInv(q, name, CMarkAsComplete(m, now));
    WorkerTarget(q, name, CMarkAsComplete(m, now));
    assert Retained(q1, m.id, m.(completedAt := Sec(now)), Sec(now) + m.retention);
    RunRetains(q1, name, cmds, m.id, m.(completedAt := Sec(now)), Sec(now) + m.retention);
  }

  // ---------------------------------------------------------------- uniqueness

  ghost predicate HeldBy(q: QueueState, key: string, id: string, expireAt: int) {
    key in q.locks && q.locks[key] == Lock(id, expireAt)
  }

  lemma ReleaseLocks(q: QueueState, id: string)
    ensures Release(q, id).q.locks == q.locks
  {
    hide LRem;
  }

  /** The holder of the key is done: a call of Done for it that goes through. */
  predicate Finishes(q: QueueState, c: Cmd, key: string, id: string) {
    c.CDone? && c.m.id == id && c.m.uniqueKey == key && Exec(q, c).reply == Ok
  }

  /** No command of the run finishes the holder of the key. */
  ghost predicate Unfinished(q: QueueState, cmds: seq<Cmd>, key: string, id: string)
    decreases cmds
  {
    cmds == [] || (!Finishes(q, cmds[0], key, id) && Unfinished(Exec(q, cmds[0]).q, cmds[1..], key, id))
  }

  lemma StepKeepsLock(q: QueueState, c: Cmd, key: string, id: string, expireAt: int)
    requires HeldBy(q, key, id, expireAt) && c.now <= expireAt
    requires !Finishes(q, c, key, id)
    ensures HeldBy(Exec(q, c).q, key, id, expireAt)
  {
    hide RangeByScore, Trimmed, Release, MarkPending, Reverse, Stored, SetMsgState, SetState, HashOf, Rescore, LeaseExpired, ReadyIds, ExpiredIds;
    match c
    case CDone(m, _) => ReleaseLocks(q, m.id);
    case CMarkAsComplete(m, _) => ReleaseLocks(q, m.id);
    case CRequeue(m, _) => ReleaseLocks(q, m.id);
    case CRetry(m, _, _, _, _) => ReleaseLocks(q, m.id);
    case CArchive(m, _, _, _) => ReleaseLocks(q, m.id);
    case _ =>
  }

  lemma {:induction false} RunKeepsLock(q: QueueState, cmds: seq<Cmd>, key: string, id: string, expireAt: int)
    requires HeldBy(q, key, id, expireAt)
    requires forall i | 0 <= i < |cmds| :: cmds[i].now <= expireAt
    requires Unfinished(q, cmds, key, id)
    ensures HeldBy(ExecAll(q, cmds), key, id, expireAt)
    decreases cmds
  {
    hide Exec, HeldBy, Finishes;
    if cmds != [] {
      StepKeepsLock(q, cmds[0], key, id, expireAt);
      RunKeepsLock(Exec(q, cmds[0]).q, cmds[1..], key, id, expireAt);
    }
  }

  /**
   Between a successful unique enqueue or schedule and the earlier of the lock's expiry and the
   holder's successful Done, whatever runs in between, refused calls of Done included, another call
   with the key changes nothing and is refused as a duplicate.
   */
  lemma UniqueUntilDoneOrExpiry(q: QueueState, first: Cmd, cmds: seq<Cmd>, second: Cmd)
    requires IsUnique(first) && Exec(q, first).reply == Ok
    requires forall i | 0 <= i < |cmds| :: cmds[i].now <= first.now + first.ttl * SECOND
    requires Unfinished(Exec(q, first).q, cmds, first.m.uniqueKey, first.m.id)
    requires IsUnique(second) && second.m.uniqueKey == first.m.uniqueKey
    requires second.now <= first.now + first.ttl * SECOND
    ensures var q' := ExecAll(Exec(q, first).q, cmds);
            Exec(q', second) == Out(q', if second.ttl > 0 then Duplicate else BadExpiry)
  {
    var expireAt := first.now + first.ttl * SECOND;
    var q1 := Exec(q, first).q;
    assert HeldBy(q1, first.m.uniqueKey, first.m.id, expireAt);
    RunKeepsLock(q1, cmds, first.m.uniqueKey, first.m.id, expireAt);
  }

  /** Done gives up the lock that its task holds, unless it has expired, and leaves all others. */
  lemma DoneUnlocksOnlyItsOwn(q: QueueState, name: string, m: TaskMessage, now: int)
    requires Inv(q, name) && m.queue == name
    ensures var key := m.uniqueKey;
            Exec(q, CDone(m, now)).q.locks ==
              if m.id in q.active && key != "" && key in q.locks && now <= q.locks[key].expireAt && q.locks[key].holder == m.id
              then q.locks - {key} else q.locks
  {
    hide Inv, LRem;
    AllOrNothing(q, name, CDone(m, now));
    if m.id in q.active { ReleaseKeeps(q, name, m.id); }
  }

  /**
   A refused client call is not always without effect: the unique calls take the lock before they
   look at the id.  The state changes exactly when the lock was free and the id was taken.
   */
  lemma RefusedCallEffect(q: QueueState, c: Cmd)
    requires Submits(c)
    ensures var out := Exec(q, c);
            var takes := IsUnique(c) && c.ttl > 0 && Free(q, c.m.uniqueKey, c.now) && c.m.id in q.tasks;
            out.reply != Ok ==>
              && (out.q != q <==> takes)
              && (takes ==> out.reply == Conflict && HeldBy(out.q, c.m.uniqueKey, c.m.id, c.now + c.ttl * SECOND))
  {
    ClientReply(q, c);
    var key := c.m.uniqueKey;
    if IsUnique(c) && c.ttl > 0 && Free(q, key, c.now) && c.m.id in q.tasks {
      assert key in Exec(q, c).q.locks && Exec(q, c).q.locks[key].expireAt >= c.now;
    }
  }

  // ---------------------------------------------------------------- locks end

  /** No lock on the key, or one that has expired. */
  predicate Free(q: QueueState, key: string, now: int) {
    key in q.locks ==> q.locks[key].expireAt < now
  }

  predicate Takes(q: QueueState, c: Cmd, key: string) {
    IsUnique(c) && c.m.uniqueKey == key && (Exec(q, c).reply == Ok || Exec(q, c).reply == Conflict)
  }

  /** No command of the run takes the lock on the key. */
  ghost predicate Untaken(q: QueueState, cmds: seq<Cmd>, key: string)
    decreases cmds
  {
    cmds == [] || (!Takes(q, cmds[0], key) && Untaken(Exec(q, cmds[0]).q, cmds[1..], key))
  }

  lemma StepTakesNoLock(q: QueueState, name: string, c: Cmd, key: string)
    requires Inv(q, name) && Addressed(name, c) && !Takes(q, c, key)
    ensures var q' := Exec(q, c).q; key in q'.locks ==> key in q.locks && q'.locks[key] == q.locks[key]
  {
    hide Inv, Exec;
    StepGlobals(q, c);
    if Submits(c) { ClientReply(q, c); } else if c.CDone? { DoneUnlocksOnlyItsOwn(q, name, c.m, c.now); }
  }

  lemma {:induction false} RunTakesNoLock(q: QueueState, name: string, cmds: seq<Cmd>, key: string)
    requires Inv(q, name) && AllAddressed(name, cmds) && Untaken(q, cmds, key)
    ensures var q' := ExecAll(q, cmds); key in q'.locks ==> key in q.locks && q'.locks[key] == q.locks[key]
    decreases cmds
  {
    hide Inv, Exec, Takes;
    if cmds != [] {
      StepTakesNoLock(q, name, cmds[0], key);
      StepKeepsInv(q, name, cmds[0]);
      RunTakesNoLock(Exec(q, cmds[0]).q, name, cmds[1..], key);
    }
  }

  /**
   A unique call under a new id goes through, and takes the lock for its lifetime, once the key's
   lock is gone or has expired, if no call has taken it since.
   */
  lemma AcceptedWhenFree(q: QueueState, name: string, cmds: seq<Cmd>, c: Cmd)
    requires Inv(q, name) && AllAddressed(name, cmds) && IsUnique(c) && c.ttl > 0 && Untaken(q, cmds, c.m.uniqueKey)
    requires Free(q, c.m.uniqueKey, c.now) && c.m.id !in ExecAll(q, cmds).tasks
    ensures var out := Exec(ExecAll(q, cmds), c);
            out.reply == Ok && HeldBy(out.q, c.m.uniqueKey, c.m.id, c.now + c.ttl * SECOND)
  {
    hide Inv, Exec;
    RunTakesNoLock(q, name, cmds, c.m.uniqueKey);
    ClientReply(ExecAll(q, cmds), c);
  }

  /** So it goes through after the lock of an earlier call has expired. */
  lemma AcceptedAfterExpiry(q: QueueState, name: string, first: Cmd, cmds: seq<Cmd>, c: Cmd)
    requires Inv(q, name) && Addressed(name, first) && IsUnique(first) && Exec(q, first).reply == Ok
    requires AllAddressed(name, cmds) && Untaken(Exec(q, first).q, cmds, first.m.uniqueKey)
    requires IsUnique(c) && c.ttl > 0 && c.m.uniqueKey == first.m.uniqueKey && c.now > first.now + first.ttl * SECOND
    requires c.m.id !in ExecAll(Exec(q, first).q, cmds).tasks
    ensures Exec(ExecAll(Exec(q, first).q, cmds), c).reply == Ok
  {
    hide Inv, Exec, ExecAll;
    ClientReply(q, first);
    StepKeepsInv(q, name, first);
    AcceptedWhenFree(Exec(q, first).q, name, cmds, c);
  }

  /** And it goes through after the holder's Done. */
  lemma AcceptedAfterDone(q: QueueState, name: string, m: TaskMessage, now: int, cmds: seq<Cmd>, c: Cmd)
    requires Inv(q, name) && m.queue == name && m.id in q.active && m.uniqueKey != ""
    requires m.uniqueKey in q.locks ==> q.locks[m.uniqueKey].holder == m.id
    requires IsUnique(c) && c.ttl > 0 && c.m.uniqueKey == m.uniqueKey && now <= c.now
    requires var q1 := Exec(q, CDone(m, now)).q;
             AllAddressed(name, cmds) && Untaken(q1, cmds, m.uniqueKey) && c.m.id !in ExecAll(q1, cmds).tasks
    ensures Exec(ExecAll(Exec(q, CDone(m, now)).q, cmds), c).reply == Ok
  {
    hide Inv, Exec, ExecAll;
    DoneUnlocksOnlyItsOwn(q, name, m, now);
    StepKeepsInv(q, name, CDone(m, now));
    AcceptedWhenFree(Exec(q, CDone(m, now)).q, name, cmds, c);
  }

  // ---------------------------------------------------------------- first in, first out

  /** Pending as a queue with its next task at index 0. */
  function Fifo(q: QueueState): seq<string> {
    Reverse(q.pending)
  }

  /** The ids that a command appends, in order. */
  function Arrivals(q: QueueState, c: Cmd): seq<string> {
    match c
    case CEnqueue(m, _) => if Exec(q, c).reply == Ok then [m.id] else []
    case CEnqueueUnique(m, _, _) => if Exec(q, c).reply == Ok then [m.id] else []
    case CForward(src, now) => ReadyIds(q, src, now, FORWARD_BATCH)
    case _ => []
  }

  function Departures(q: QueueState, c: Cmd): seq<string> {
    if c.CDequeue? && Exec(q, c).reply.Message? then [Exec(q, c).reply.msg.id] else []
  }

  /** The ids that a command puts in front of the queue. */
  function Returns(q: QueueState, c: Cmd): seq<string> {
    if c.CRequeue? && Exec(q, c).reply == Ok then [c.m.id] else []
  }

  lemma {:induction false} ReverseConcat(a: seq<string>, b: seq<string>)
    ensures Reverse(a + b) == Reverse(b) + Reverse(a)
  {
    var r, t := Reverse(a + b), Reverse(b) + Reverse(a);
    assert |r| == |t|;
    forall i | 0 <= i < |r| ensures r[i] == t[i] {
      assert r[i] == (a + b)[|r| - 1 - i];
    }
  }

  lemma ReverseTwice(a: seq<string>)
    ensures Reverse(Reverse(a)) == a
  {
    var r := Reverse(a);
    var t := Reverse(r);
    forall i | 0 <= i < |a| ensures t[i] == a[i] { assert t[i] == r[|r| - 1 - i]; }
  }

  lemma AppendArrival(q: QueueState, q': QueueState, id: string)
    requires q'.pending == [id] + q.pending
    ensures Fifo(q') == Fifo(q) + [id]
  {
    ReverseConcat([id], q.pending);
    SingletonReverse(id);
  }

  lemma ReturnToFront(q: QueueState, q': QueueState, id: string)
    requires q'.pending == q.pending + [id]
    ensures Fifo(q') == [id] + Fifo(q)
  {
    ReverseConcat(q.pending, [id]);
    SingletonReverse(id);
  }

  lemma ForwardIsFifo(q: QueueState, src: Source, now: int)
    ensures Fifo(Forward(q, src, now, FORWARD_BATCH).q) == Fifo(q) + ReadyIds(q, src, now, FORWARD_BATCH)
  {
    hide ReadyIds, Reverse, MarkPending;
    var ids := ReadyIds(q, src, now, FORWARD_BATCH);
    ReverseConcat(Reverse(ids), q.pending);
    ReverseTwice(ids);
  }

  lemma DequeueIsFifo(q: QueueState, name: string, now: int)
    requires Inv(q, name)
    ensures Fifo(q) == Departures(q, CDequeue(now)) + Fifo(Exec(q, CDequeue(now)).q)
  {
    hide Inv, Fifo;
    DequeueDelivers(q, name, Sec(now + LEASE_DURATION));
    var q' := Exec(q, CDequeue(now)).q;
    if !q.paused && q.pending != [] {
      var n := |q.pending| - 1;
      assert q.pending == q'.pending + [q.pending[n]];
      ReturnToFront(q', q, q.pending[n]);
    } else {
      assert [] + Fifo(q) == Fifo(q);
    }
  }

  /** The scripts that end an attempt touch pending only to requeue. */
  lemma EndingPending(q: QueueState, c: Cmd)
    requires EndsAttempt(c)
    ensures Exec(q, c).q.pending == q.pending + Returns(q, c)
  {
    hide Release, Trimmed, SetMsgState, SetState, Unlock;
    ReleasePending(q, c.m.id);
    UnlockPending(Release(q, c.m.id).q.(tasks := Release(q, c.m.id).q.tasks - {c.m.id}), c.m.uniqueKey, c.m.id, c.now);
  }

  lemma ReleasePending(q: QueueState, id: string)
    ensures Release(q, id).q.pending == q.pending
  {
    hide LRem;
  }

  lemma UnlockPending(q: QueueState, key: string, id: string, now: int)
    ensures Unlock(q, key, id, now).pending == q.pending
  {
  }

  lemma ArrivalPending(q: QueueState, c: Cmd)
    requires Submits(c)
    ensures Exec(q, c).q.pending == Arrivals(q, c) + q.pending && |Arrivals(q, c)| <= 1
  {
  }

  lemma OtherPending(q: QueueState, c: Cmd)
    requires c.CDeleteExpired? || c.CListExpired? || c.CExtendLease? || c.CWriteResult? || c.CPause?
    ensures Exec(q, c).q.pending == q.pending
  {
    hide ExpiredIds, LeaseExpired;
  }

  /** Each command acts on the abstract queue: take from the front, append, or put back in front. */
  lemma StepIsFifo(q: QueueState, name: string, c: Cmd)
    requires Inv(q, name) && Addressed(name, c)
    ensures Returns(q, c) + Fifo(q) + Arrivals(q, c) == Departures(q, c) + Fifo(Exec(q, c).q)
  {
    hide Inv, Exec, Fifo, ReadyIds;
    var q' := Exec(q, c).q;
    match c
    case CForward(src, now) =>
      ExecForward(q, src, now);
      ForwardIsFifo(q, src, now);
    case CDequeue(now) => DequeueIsFifo(q, name, now);
    case CDone(_, _) => EndingPending(q, c); SamePending(q, q');
    case CMarkAsComplete(_, _) => EndingPending(q, c); SamePending(q, q');
    case CRetry(_, _, _, _, _) => EndingPending(q, c); SamePending(q, q');
    case CArchive(_, _, _, _) => EndingPending(q, c); SamePending(q, q');
    case CRequeue(m, _) =>
      EndingPending(q, c);
      if Returns(q, c) == [] { SamePending(q, q'); } else { ReturnToFront(q, q', m.id); }
    case CEnqueue(m, _) =>
      ArrivalPending(q, c);
      if Arrivals(q, c) == [] { SamePending(q, q'); } else { AppendArrival(q, q', m.id); }
    case CEnqueueUnique(m, _, _) =>
      ArrivalPending(q, c);
      if Arrivals(q, c) == [] { SamePending(q, q'); } else { AppendArrival(q, q', m.id); }
    case CSchedule(_, _, _) => ArrivalPending(q, c); SamePending(q, q');
    case CScheduleUnique(_, _, _, _) => ArrivalPending(q, c); SamePending(q, q');
    case _ => OtherPending(q, c); SamePending(q, q');
  }

  lemma ExecForward(q: QueueState, src: Source, now: int)
    ensures Exec(q, CForward(src, now)) == Forward(q, src, now, FORWARD_BATCH)
  {
    hide Forward;
  }

  lemma SamePending(q: QueueState, q': QueueState)
    requires q'.pending == q.pending || q'.pending == q.pending + [] || q'.pending == [] + q.pending
    ensures [] + Fifo(q) + [] == [] + Fifo(q') && Fifo(q) == Fifo(q')
  {
  }

  lemma SingletonReverse(id: string)
    ensures Reverse([id]) == [id]
  {
  }

  function AllDepartures(q: QueueState, cmds: seq<Cmd>): seq<string>
    decreases cmds
  {
    if cmds == [] then [] else Departures(q, cmds[0]) + AllDepartures(Exec(q, cmds[0]).q, cmds[1..])
  }

  /** A requeued task is the next one out, whatever arrives in between. */
  lemma {:induction false} FrontStays(q: QueueState, name: string, cmds: seq<Cmd>, id: string)
    requires Inv(q, name) && AllAddressed(name, cmds)
    requires Fifo(q) != [] && Fifo(q)[0] == id
    requires forall i | 0 <= i < |cmds| :: !cmds[i].CRequeue? && !cmds[i].CDequeue?
    ensures var q' := ExecAll(q, cmds); Inv(q', name) && Fifo(q') != [] && Fifo(q')[0] == id
    decreases cmds
  {
    hide Inv, Exec, Fifo, Arrivals;
    if cmds != [] {
      var q1 := Exec(q, cmds[0]).q;
      StepIsFifo(q, name, cmds[0]);
      StepKeepsInv(q, name, cmds[0]);
      assert Returns(q, cmds[0]) == [] == Departures(q, cmds[0]);
      assert [] + Fifo(q) + Arrivals(q, cmds[0]) == Fifo(q) + Arrivals(q, cmds[0]);
      assert Fifo(q1) == Fifo(q) + Arrivals(q, cmds[0]);
      FrontStays(q1, name, cmds[1..], id);
    }
  }

  lemma RequeuedIsNext(q: QueueState, name: string, m: TaskMessage, now: int, cmds: seq<Cmd>, later: int)
    requires Inv(q, name) && m.queue == name && m.id in q.active && AllAddressed(name, cmds)
    requires forall i | 0 <= i < |cmds| :: !cmds[i].CRequeue? && !cmds[i].CDequeue?
    ensures var q' := ExecAll(Exec(q, CRequeue(m, now)).q, cmds);
            !q'.paused ==> var r := Exec(q', CDequeue(later)).reply; r.Message? && r.msg.id == m.id
  {
    hide Inv, Exec, Fifo;
    RequeueGoesFirst(q, name, m, now);
    var q1 := Exec(q, CRequeue(m, now)).q;
    FrontStays(q1, name, cmds, m.id);
    if !ExecAll(q1, cmds).paused { DequeueTakesFront(ExecAll(q1, cmds), name, later); }
  }

  lemma DequeueTakesFront(q: QueueState, name: string, now: int)
    requires Inv(q, name) && !q.paused && Fifo(q) != []
    ensures var r := Exec(q, CDequeue(now)).reply; r.Message? && r.msg.id == Fifo(q)[0]
  {
    hide Inv;
    DequeueDelivers(q, name, Sec(now + LEASE_DURATION));
  }

  lemma RequeueGoesFirst(q: QueueState, name: string, m: TaskMessage, now: int)
    requires Inv(q, name) && m.queue == name && m.id in q.active
    ensures var q' := Exec(q, CRequeue(m, now)).q; Inv(q', name) && Fifo(q') == [m.id] + Fifo(q)
  {
    hide Inv, Exec, Fifo;
    AllOrNothing(q, name, CRequeue(m, now));
    StepIsFifo(q, name, CRequeue(m, now));
    StepKeepsInv(q, name, CRequeue(m, now));
    var q' := Exec(q, CRequeue(m, now)).q;
    assert Returns(q, CRequeue(m, now)) == [m.id];
    assert Departures(q, CRequeue(m, now)) == [] == Arrivals(q, CRequeue(m, now));
    assert [m.id] + Fifo(q) + [] == [m.id] + Fifo(q) && [] + Fifo(q') == Fifo(q');
  }

  // ---------------------------------------------------------------- overtaking

  function AllReturns(q: QueueState, cmds: seq<Cmd>): seq<string>
    decreases cmds
  {
    if cmds == [] then [] else Returns(q, cmds[0]) + AllReturns(Exec(q, cmds[0]).q, cmds[1..])
  }

  /** a stands before b. */
  ghost predicate Ahead(f: seq<string>, a: string, b: string) {
    exists i, j :: 0 <= i < j < |f| && f[i] == a && f[j] == b
  }

  /** One command's effect on the abstract queue: it takes at most the first task, or puts tasks at the ends. */
  ghost predicate Advances(f: seq<string>, f': seq<string>, ret: seq<string>, arr: seq<string>, dep: seq<string>) {
    && ret + f + arr == dep + f' && NoDup(f) && NoDup(f')
    && (dep == [] || (ret == [] && |dep| == 1 && f != []))
  }

  lemma StepAdvances(q: QueueState, name: string, c: Cmd)
    requires Inv(q, name) && Addressed(name, c)
    ensures Inv(Exec(q, c).q, name)
    ensures Advances(Fifo(q), Fifo(Exec(q, c).q), Returns(q, c), Arrivals(q, c), Departures(q, c))
  {
    hide Inv, Exec;
    StepIsFifo(q, name, c);
    StepKeepsInv(q, name, c);
    FifoNoDup(q, name);
    FifoNoDup(Exec(q, c).q, name);
    if Departures(q, c) != [] { DequeueAnswers(q, name, c.now); }
  }

  lemma DequeueAnswers(q: QueueState, name: string, now: int)
    requires Inv(q, name) && Exec(q, CDequeue(now)).reply.Message?
    ensures Fifo(q) != []
  {
    hide Inv;
    DequeueDelivers(q, name, Sec(now + LEASE_DURATION));
  }

  lemma FifoNoDup(q: QueueState, name: string)
    requires Inv(q, name)
    ensures NoDup(Fifo(q))
  {
    ReverseNoDup(q.pending);
  }

  lemma AheadStays(f: seq<string>, f': seq<string>, ret: seq<string>, arr: seq<string>, dep: seq<string>, a: string, b: string)
    requires Advances(f, f', ret, arr, dep) && Ahead(f, a, b) && a !in dep
    ensures Ahead(f', a, b) && b !in dep
  {
    var i, j :| 0 <= i < j < |f| && f[i] == a && f[j] == b;
    var all := ret + f + arr;
    assert all[|ret| + i] == a && all[|ret| + j] == b;
    var k := |ret| - |dep|;
    if dep != [] { assert all[0] == f[0] == dep[0]; }
    assert f'[k + i] == (dep + f')[|ret| + i] == a;
    assert f'[k + j] == (dep + f')[|ret| + j] == b;
  }

  /**
   Nobody overtakes: of two waiting tasks the first stays ahead of the second, and the second does
   not leave, for as long as the first has not left.  This holds over every run.
   */
  lemma {:induction false} NoOvertaking(q: QueueState, name: string, cmds: seq<Cmd>, a: string, b: string)
    requires Inv(q, name) && AllAddressed(name, cmds)
    requires Ahead(Fifo(q), a, b) && a !in AllDepartures(q, cmds)
    ensures Ahead(Fifo(ExecAll(q, cmds)), a, b) && b !in AllDepartures(q, cmds)
    decreases cmds
  {
    hide Inv, Exec, Fifo, Arrivals, Departures, Returns, Ahead, Advances;
    if cmds != [] {
      var q1 := Exec(q, cmds[0]).q;
      StepAdvances(q, name, cmds[0]);
      AheadStays(Fifo(q), Fifo(q1), Returns(q, cmds[0]), Arrivals(q, cmds[0]), Departures(q, cmds[0]), a, b);
      NoOvertaking(q1, name, cmds[1..], a, b);
    }
  }

  lemma StillWaits(f: seq<string>, f': seq<string>, ret: seq<string>, arr: seq<string>, dep: seq<string>, a: string)
    requires Advances(f, f', ret, arr, dep) && a in f && a !in dep
    ensures a in f'
    ensures forall b | b in dep :: Ahead(f, b, a)
    ensures forall b | Ahead(f', b, a) :: Ahead(f, b, a) || b in ret
  {
    var p :| 0 <= p < |f| && f[p] == a;
    var all := ret + f + arr;
    var k := |ret| - |dep|;
    assert all[|ret| + p] == a;
    if dep != [] { assert all[0] == f[0] == dep[0]; }
    assert f'[k + p] == (dep + f')[|ret| + p] == a;
    forall b | Ahead(f', b, a) ensures Ahead(f, b, a) || b in ret {
      var i, j :| 0 <= i < j < |f'| && f'[i] == b && f'[j] == a;
      assert j == k + p;
      assert (dep + f')[|dep| + i] == b == all[|dep| + i];
      if |dep| + i >= |ret| { assert all[|dep| + i] == f[i - k]; }
    }
  }

  /**
   Whatever leaves while a task waits was ahead of it from the start or has been requeued since:
   later arrivals come out later, in every run.
   */
  lemma {:induction false} OnlyRequeuedOvertake(q: QueueState, name: string, cmds: seq<Cmd>, a: string)
    requires Inv(q, name) && AllAddressed(name, cmds)
    requires a in Fifo(q) && a !in AllDepartures(q, cmds)
    ensures a in Fifo(ExecAll(q, cmds))
    ensures forall b | b in AllDepartures(q, cmds) :: Ahead(Fifo(q), b, a) || b in AllReturns(q, cmds)
    decreases cmds
  {
    hide Inv, Exec, Fifo, Arrivals, Departures, Returns, Ahead, Advances;
    if cmds != [] {
      var q1 := Exec(q, cmds[0]).q;
      StepAdvances(q, name, cmds[0]);
      StillWaits(Fifo(q), Fifo(q1), Returns(q, cmds[0]), Arrivals(q, cmds[0]), Departures(q, cmds[0]), a);
      OnlyRequeuedOvertake(q1, name, cmds[1..], a);
    }
  }

  // ---------------------------------------------------------------- the abstract queue

  datatype QueueOp = Append(ids: seq<string>) | PutFirst(id: string) | TakeFirst

  function Play(f: seq<string>, op: QueueOp): seq<string> {
    match op
    case Append(ids) => f + ids
    case PutFirst(id) => [id] + f
    case TakeFirst => if f == [] then [] else f[1..]
  }

  function Replay(f: seq<string>, ops: seq<QueueOp>): seq<string>
    decreases ops
  {
    if ops == [] then f else Replay(Play(f, ops[0]), ops[1..])
  }

  /** What the operations take out, in order. */
  function Taken(f: seq<string>, ops: seq<QueueOp>): seq<string>
    decreases ops
  {
    if ops == [] then []
    else (if ops[0].TakeFirst? && f != [] then [f[0]] else []) + Taken(Play(f, ops[0]), ops[1..])
  }

  /** A command as an operation on the abstract queue, by its kind and its reply alone. */
  function OpOf(q: QueueState, c: Cmd): QueueOp {
    if Departures(q, c) != [] then TakeFirst
    else if Returns(q, c) != [] then PutFirst(c.m.id)
    else Append(Arrivals(q, c))
  }

  function Ops(q: QueueState, cmds: seq<Cmd>): seq<QueueOp>
    decreases cmds
  {
    if cmds == [] then [] else [OpOf(q, cmds[0])] + Ops(Exec(q, cmds[0]).q, cmds[1..])
  }

  lemma StepPlays(q: QueueState, name: string, c: Cmd)
    requires Inv(q, name) && Addressed(name, c)
    ensures Inv(Exec(q, c).q, name)
    ensures Fifo(Exec(q, c).q) == Play(Fifo(q), OpOf(q, c))
    ensures Departures(q, c) == if OpOf(q, c).TakeFirst? && Fifo(q) != [] then [Fifo(q)[0]] else []
  {
    hide Inv, Exec, Fifo, Arrivals;
    StepAdvances(q, name, c);
    var f, f', arr := Fifo(q), Fifo(Exec(q, c).q), Arrivals(q, c);
    if Departures(q, c) != [] {
      assert (Departures(q, c) + f')[1..] == f';
      assert ([] + f + arr)[0] == f[0] && ([] + f + arr)[1..] == f[1..] + arr;
      NoArrivals(q, c);
      assert f[1..] + [] == f[1..];
    } else if Returns(q, c) != [] {
      NoArrivals(q, c);
      assert [c.m.id] + f + [] == [c.m.id] + f && [] + f' == f';
    } else {
      assert [] + f + arr == f + arr && [] + f' == f';
    }
  }

  lemma NoArrivals(q: QueueState, c: Cmd)
    requires c.CDequeue? || c.CRequeue?
    ensures Arrivals(q, c) == []
  {
    hide Exec;
  }

  /** Over every run, pending is the abstract queue and dequeues are what it gives out. */
  lemma {:induction false} RunIsFifo(q: QueueState, name: string, cmds: seq<Cmd>)
    requires Inv(q, name) && AllAddressed(name, cmds)
    ensures Fifo(ExecAll(q, cmds)) == Replay(Fifo(q), Ops(q, cmds))
    ensures AllDepartures(q, cmds) == Taken(Fifo(q), Ops(q, cmds))
    decreases cmds
  {
    hide Inv, Exec, Fifo, Departures, OpOf, Play;
    if cmds != [] {
      StepPlays(q, name, cmds[0]);
      RunIsFifo(Exec(q, cmds[0]).q, name, cmds[1..]);
      assert Ops(q, cmds)[1..] == Ops(Exec(q, cmds[0]).q, cmds[1..]);
    }
  }

  // ---------------------------------------------------------------- hashes without a place

  ghost predicate Orphan(q: QueueState, id: string) {
    id in q.tasks && !Placed(q, id)
  }

  lemma StepOrphan(q: QueueState, name: string, c: Cmd, id: string)
    requires Inv(q, name) && Addressed(name, c) && Orphan(q, id)
    ensures Orphan(Exec(q, c).q, id)
  {
    hide Inv, Exec, Trimmed, ReadyIds, ExpiredIds;
    if !Touches(q, c, id) {
      StepFrame(q, c, id);
    } else {
      match c
      case CDone(_, _) => AllOrNothing(q, name, c);
      case CMarkAsComplete(_, _) => AllOrNothing(q, name, c);
      case CRequeue(_, _) => AllOrNothing(q, name, c);
      case CRetry(_, _, _, _, _) => AllOrNothing(q, name, c);
      case CArchive(m, err, now, cutoff) =>
        AllOrNothing(q, name, c);
        if m.id in q.active { ArchiveTarget(q, name, m, err, now, cutoff); }
      case CForward(src, now) => ForwardTarget(q, name, src, now, FORWARD_BATCH, id);
      case CDeleteExpired(now, batch) => DeleteExpiredTarget(q, name, now, batch, id);
      case CDequeue(_) =>
      case CExtendLease(_, _) => QuietStep(q, c);
      case CWriteResult(_, _, _) => QuietStep(q, c);
      case _ => ClientTarget(q, name, c);
    }
  }

  /**
   A hash that has lost its place never goes away, and never gets one again: over every run the id
   stays refused to all clients.
   */
  lemma {:induction false} OrphansStay(q: QueueState, name: string, cmds: seq<Cmd>, id: string, c: Cmd)
    requires Inv(q, name) && AllAddressed(name, cmds) && Orphan(q, id)
    requires (c.CEnqueue? || IsUnique(c) || c.CSchedule?) && c.m.id == id
    ensures var q' := ExecAll(q, cmds);
            && Orphan(q', id)
            && Exec(q', c).reply == if IsUnique(c) && c.ttl <= 0 then BadExpiry
                                    else if IsUnique(c) && Locked(q', c.m.uniqueKey, c.now) then Duplicate
                                    else Conflict
    decreases cmds
  {
    hide Inv, Orphan;
    if cmds != [] {
      hide Exec;
      StepOrphan(q, name, cmds[0], id);
      StepKeepsInv(q, name, cmds[0]);
      OrphansStay(Exec(q, cmds[0]).q, name, cmds[1..], id, c);
    } else {
      assert id in q.tasks by { OrphanHash(q, id); }
    }
  }

  lemma OrphanHash(q: QueueState, id: string)
    requires Orphan(q, id)
    ensures id in q.tasks
  {
  }
}
