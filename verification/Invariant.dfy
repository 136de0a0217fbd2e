/**
 The invariant that every script keeps, and what it buys: the scripts check only part of what
 they rely on, and the checks that they do make after the first one never fail.
 */
module Invariant {
  import opened Base
  import opened SortedSets
  import opened Queues

  lemma InitInv(name: string)
    ensures Inv(EMPTY_QUEUE, name)
  {
  }

  // ---------------------------------------------------------------- one place

  /** The number of structures and positions at which an id stands. */
  ghost function Places(q: QueueState, id: string): nat {
    multiset(q.pending)[id] + multiset(q.active)[id]
    + (if id in q.scheduled then 1 else 0) + (if id in q.retry then 1 else 0)
    + (if id in q.archived then 1 else 0) + (if id in q.completed then 1 else 0)
  }

  lemma {:induction false} NoDupCount(s: seq<string>, id: string)
    requires NoDup(s)
    ensures multiset(s)[id] == if id in s then 1 else 0
  {
    if s != [] {
      var t := s[1..];
      assert s == [s[0]] + t;
      forall i, j | 0 <= i < j < |t| ensures t[i] != t[j] { assert s[i + 1] != s[j + 1]; }
      NoDupCount(t, id);
      assert s[0] !in t by {
        forall k | 0 <= k < |t| ensures t[k] != s[0] { assert t[k] == s[k + 1]; }
      }
    }
  }

  /** Every id stands in at most one place and at most once; placed ids are exactly those counted. */
  lemma OnePlace(q: QueueState, name: string, id: string)
    requires Inv(q, name)
    ensures Places(q, id) == if Placed(q, id) then 1 else 0
    ensures id in q.lease <==> id in q.active
    ensures Placed(q, id) ==> exists st :: Holds(q, name, id, st)
  {
    NoDupCount(q.pending, id);
    NoDupCount(q.active, id);
    var st := if id in q.pending then Pending else if id in q.active then Active
              else if id in q.scheduled then Scheduled else if id in q.retry then Retry
              else if id in q.archived then Archived else Completed;
    assert id in Elems(q.pending) <==> id in q.pending;
    assert id in Elems(q.active) <==> id in q.active;
    assert Placed(q, id) ==> Holds(q, name, id, st);
  }

  // ---------------------------------------------------------------- preservation

  lemma ReleaseKeeps(q: QueueState, name: string, id: string)
    requires Inv(q, name) && id in q.active
    ensures var r := Release(q, id);
            && r.reply == Ok
            && r.q == q.(active := LRem(q.active, id), lease := q.lease - {id})
            && Inv(r.q, name) && !Placed(r.q, id)
            && id !in q.completed && Holds(q, name, id, Active)
  {
    LRemNoDup(q.active, id);
    assert id in Elems(q.active);
    assert Elems(LRem(q.active, id)) == Elems(q.active) - {id};
  }

  /** A set of tasks keeps its state when their hashes are untouched. */
  lemma HoldFrame(q: QueueState, q': QueueState, name: string, ids: set<string>, st: TaskState)
    requires AllHold(q, name, ids, st)
    requires forall x | x in ids :: x in q'.tasks && x in q.tasks && q'.tasks[x] == q.tasks[x]
    ensures AllHold(q', name, ids, st)
  {
  }

  ghost predicate GoodHash(name: string, id: string, h: Hash, st: TaskState) {
    h.state == Some(st) && h.msg.Some? && h.msg.value.id == id && h.msg.value.queue == name
  }

  /** Writing one hash disturbs no place of another id. */
  lemma WriteHash(q: QueueState, name: string, id: string, h: Hash)
    requires Inv(q, name) && !Placed(q, id)
    ensures Inv(q.(tasks := q.tasks[id := h]), name)
  {
    var q' := q.(tasks := q.tasks[id := h]);
    HoldFrame(q, q', name, Elems(q.pending), Pending);
    HoldFrame(q, q', name, Elems(q.active), Active);
    HoldFrame(q, q', name, q.scheduled.Keys, Scheduled);
    HoldFrame(q, q', name, q.retry.Keys, Retry);
    HoldFrame(q, q', name, q.archived.Keys, Archived);
    HoldFrame(q, q', name, q.completed.Keys, Completed);
  }

  lemma ToPending(q: QueueState, name: string, id: string, h: Hash)
    requires Inv(q, name) && !Placed(q, id) && GoodHash(name, id, h, Pending)
    ensures Inv(q.(pending := [id] + q.pending, tasks := q.tasks[id := h]), name)
    ensures Inv(q.(pending := q.pending + [id], tasks := q.tasks[id := h]), name)
  {
    WriteHash(q, name, id, h);
    NoDupCons(id, q.pending);
    assert Elems([id] + q.pending) == Elems(q.pending) + {id} == Elems(q.pending + [id]);
  }

  lemma ToScheduled(q: QueueState, name: string, id: string, h: Hash, at: int)
    requires Inv(q, name) && !Placed(q, id) && GoodHash(name, id, h, Scheduled)
    ensures Inv(q.(scheduled := q.scheduled[id := at], tasks := q.tasks[id := h]), name)
  {
    WriteHash(q, name, id, h);
  }

  lemma ToRetry(q: QueueState, name: string, id: string, h: Hash, at: int)
    requires Inv(q, name) && !Placed(q, id) && GoodHash(name, id, h, Retry)
    ensures Inv(q.(retry := q.retry[id := at], tasks := q.tasks[id := h]), name)
  {
    WriteHash(q, name, id, h);
  }

  lemma ToCompleted(q: QueueState, name: string, id: string, h: Hash, at: int)
    requires Inv(q, name) && !Placed(q, id) && GoodHash(name, id, h, Completed)
    ensures Inv(q.(completed := q.completed[id := at], tasks := q.tasks[id := h]), name)
  {
    WriteHash(q, name, id, h);
  }

  lemma Unplaced(q: QueueState, name: string, id: string)
    requires Inv(q, name) && id !in q.tasks
    ensures !Placed(q, id)
  {
    assert id !in Elems(q.pending) && id !in Elems(q.active);
  }

  lemma EnqueueKeeps(q: QueueState, name: string, m: TaskMessage, now: int)
    requires Inv(q, name) && m.queue == name
    ensures Inv(Enqueue(q, m, now).q, name)
  {
    hide Inv, Placed;
    if m.id !in q.tasks {
      Unplaced(q, name, m.id);
      ToPending(q, name, m.id, Hash(Some(m), Some(Pending), Some(now), None, None));
    }
  }

  lemma EnqueueUniqueKeeps(q: QueueState, name: string, m: TaskMessage, ttl: int, now: int)
    requires Inv(q, name) && m.queue == name
    ensures Inv(EnqueueUnique(q, m, ttl, now).q, name)
  {
    hide Inv, Placed;
    var ql := q.(locks := q.locks[m.uniqueKey := Lock(m.id, now + ttl * SECOND)]);
    LocksIrrelevant(q, ql.locks, name);
    if m.id !in q.tasks {
      Unplaced(ql, name, m.id);
      ToPending(ql, name, m.id, Hash(Some(m), Some(Pending), Some(now), Some(m.uniqueKey), None));
    }
  }

  lemma ScheduleKeeps(q: QueueState, name: string, m: TaskMessage, at: int)
    requires Inv(q, name) && m.queue == name
    ensures Inv(Schedule(q, m, at).q, name)
  {
    hide Inv, Placed;
    if m.id !in q.tasks {
      Unplaced(q, name, m.id);
      ToScheduled(q, name, m.id, Hash(Some(m), Some(Scheduled), None, None, None), at);
    }
  }

  lemma ScheduleUniqueKeeps(q: QueueState, name: string, m: TaskMessage, ttl: int, at: int, now: int)
    requires Inv(q, name) && m.queue == name
    ensures Inv(ScheduleUnique(q, m, ttl, at, now).q, name)
  {
    hide Inv, Placed;
    var ql := q.(locks := q.locks[m.uniqueKey := Lock(m.id, now + ttl * SECOND)]);
    LocksIrrelevant(q, ql.locks, name);
    if m.id !in q.tasks {
      Unplaced(ql, name, m.id);
      ToScheduled(ql, name, m.id, Hash(Some(m), Some(Scheduled), None, Some(m.uniqueKey), None), at);
    }
  }

  lemma LocksIrrelevant(q: QueueState, locks: map<string, Lock>, name: string)
    requires Inv(q, name)
    ensures Inv(q.(locks := locks), name)
  {
  }

  /** Taking the next task off pending. */
  lemma PopKeeps(q: QueueState, name: string)
    requires Inv(q, name) && q.pending != []
    ensures var n := |q.pending| - 1; var q' := q.(pending := q.pending[..n]);
            Inv(q', name) && !Placed(q', q.pending[n]) && Holds(q, name, q.pending[n], Pending)
  {
    var n := |q.pending| - 1;
    var id := q.pending[n];
    var q' := q.(pending := q.pending[..n]);
    assert Holds(q, name, id, Pending) by { assert id in Elems(q.pending); }
    assert id !in Elems(q.active);
    assert forall x | x in q'.pending :: x in Elems(q.pending) && x != id;
    HoldFrame(q, q', name, Elems(q'.pending), Pending);
  }

  lemma ToActive(q: QueueState, name: string, id: string, h: Hash, leaseUntil: int)
    requires Inv(q, name) && !Placed(q, id) && GoodHash(name, id, h, Active)
    ensures Inv(q.(active := [id] + q.active, tasks := q.tasks[id := h], lease := q.lease[id := leaseUntil]), name)
  {
    WriteHash(q, name, id, h);
    NoDupCons(id, q.active);
    assert Elems([id] + q.active) == Elems(q.active) + {id};
  }

  lemma DequeueKeeps(q: QueueState, name: string, leaseUntil: int)
    requires Inv(q, name)
    ensures Inv(Dequeue(q, leaseUntil).q, name)
  {
    hide Inv, Placed;
    if !q.paused && q.pending != [] {
      PopKeeps(q, name);
      var n := |q.pending| - 1;
      var id := q.pending[n];
      ToActive(q.(pending := q.pending[..n]), name, id,
               HashOf(q.tasks, id).(state := Some(Active), pendingSince := None), leaseUntil);
    }
  }

  lemma ArchiveKeeps(q: QueueState, name: string, m: TaskMessage, err: string, now: int, cutoff: int)
    requires Inv(q, name) && m.queue == name
    ensures Inv(Archive(q, m, err, now, cutoff).q, name)
  {
    hide Trimmed;
    if m.id in q.active {
      ReleaseKeeps(q, name, m.id);
      var r := Release(q, m.id).q;
      var gone := Trimmed(r.archived[m.id := Sec(now)], cutoff);
      ArchivedEntry(r, name, m.id, Sec(now), SetMsgState(r.tasks - gone, m.id, Failing(m, err, false, now), Archived)[m.id], gone);
    }
  }

  lemma ArchivedEntry(q: QueueState, name: string, id: string, score: int, h: Hash, gone: set<string>)
    requires Inv(q, name) && !Placed(q, id) && gone <= q.archived.Keys + {id}
    requires h.state == Some(Archived) && h.msg.Some? && h.msg.value.id == id && h.msg.value.queue == name
    ensures Inv(q.(archived := q.archived[id := score] - gone, tasks := (q.tasks - gone)[id := h]), name)
  {
    assert forall x | x in gone && x != id :: Holds(q, name, x, Archived);
  }

  lemma WorkerKeeps(q: QueueState, name: string, c: Cmd)
    requires Inv(q, name) && Addressed(name, c)
    requires c.CDone? || c.CMarkAsComplete? || c.CRequeue? || c.CRetry?
    ensures Inv(Exec(q, c).q, name)
  {
    hide Inv, Placed, Done, MarkAsComplete, Requeue, RetryTask;
    match c
    case CDone(m, now) => DoneKeeps(q, name, m, now);
    case CRequeue(m, _) => RequeueKeeps(q, name, m);
    case CRetry(m, at, err, isFailure, now) => RetryKeeps(q, name, m, at, err, isFailure, now);
    case CMarkAsComplete(m, now) => CompleteKeeps(q, name, m, now);
  }

  lemma DoneKeeps(q: QueueState, name: string, m: TaskMessage, now: int)
    requires Inv(q, name) && m.queue == name
    ensures Inv(Done(q, m, now).q, name)
  {
    hide Inv, Placed, LRem;
    if m.id in q.active {
      ReleaseKeeps(q, name, m.id);
      DropHash(Release(q, m.id).q, name, m.id, Done(q, m, now).q.locks);
    }
  }

  lemma RequeueKeeps(q: QueueState, name: string, m: TaskMessage)
    requires Inv(q, name) && m.queue == name
    ensures Inv(Requeue(q, m).q, name)
  {
    hide Inv, Placed, LRem;
    if m.id in q.active {
      ReleaseKeeps(q, name, m.id);
      ToPending(Release(q, m.id).q, name, m.id, Requeue(q, m).q.tasks[m.id]);
    }
  }

  lemma RetryKeeps(q: QueueState, name: string, m: TaskMessage, at: int, err: string, isFailure: bool, now: int)
    requires Inv(q, name) && m.queue == name
    ensures Inv(RetryTask(q, m, at, err, isFailure, now).q, name)
  {
    hide Inv, Placed, LRem;
    if m.id in q.active {
      ReleaseKeeps(q, name, m.id);
      ToRetry(Release(q, m.id).q, name, m.id, RetryTask(q, m, at, err, isFailure, now).q.tasks[m.id], at);
    }
  }

  lemma CompleteKeeps(q: QueueState, name: string, m: TaskMessage, now: int)
    requires Inv(q, name) && m.queue == name
    ensures Inv(MarkAsComplete(q, m, now).q, name)
  {
    hide Inv, Placed, LRem;
    if m.id in q.active {
      ReleaseKeeps(q, name, m.id);
      ToCompleted(Release(q, m.id).q, name, m.id, MarkAsComplete(q, m, now).q.tasks[m.id], Sec(now) + m.retention);
    }
  }

  lemma DropHash(q: QueueState, name: string, id: string, locks: map<string, Lock>)
    requires Inv(q, name) && !Placed(q, id)
    ensures Inv(q.(tasks := q.tasks - {id}, locks := locks), name)
  {
  }

  lemma {:induction false} ReverseNoDup(s: seq<string>)
    requires NoDup(s)
    ensures NoDup(Reverse(s))
  {
    var r := Reverse(s);
    forall i, j | 0 <= i < j < |r| ensures r[i] != r[j] {
      assert r[i] == s[|s| - 1 - i] && r[j] == s[|s| - 1 - j];
    }
  }

  lemma NoDupConcat(a: seq<string>, b: seq<string>)
    requires NoDup(a) && NoDup(b) && Elems(a) !! Elems(b)
    ensures NoDup(a + b)
  {
    var s := a + b;
    forall i, j | 0 <= i < j < |s| ensures s[i] != s[j] {
      if i < |a| <= j {
        assert s[i] in Elems(a) && s[j] in Elems(b);
      }
    }
  }

  lemma RangeNoDup(z: ZSet, max: int, n: int)
    ensures NoDup(RangeByScore(z, max, n))
  {
    hide Ranked;
    RankedInOrder(Due(z, max));
    var r := Ranked(Due(z, max));
    var b := Limit(r, n);
    forall i, j | 0 <= i < j < |b| ensures b[i] != b[j] { assert b[i] == r[i] && b[j] == r[j]; }
  }

  lemma MovePending(q: QueueState, name: string, src: Source, ids: seq<string>, now: int)
    requires Inv(q, name) && NoDup(ids) && Elems(ids) <= SourceSet(q, src).Keys
    ensures var q' := MoveToPending(q, src, ids, now);
            NoDup(q'.pending) && AllHold(q', name, Elems(q'.pending), Pending)
  {
    var q' := MoveToPending(q, src, ids, now);
    var st := if src == FromScheduled then Scheduled else Retry;
    assert forall x | x in Elems(ids) :: Holds(q, name, x, st);
    ReverseNoDup(ids);
    NoDupConcat(Reverse(ids), q.pending);
  }

  lemma MoveFrames(q: QueueState, name: string, src: Source, ids: seq<string>, now: int)
    requires Inv(q, name) && Elems(ids) <= SourceSet(q, src).Keys
    ensures var q' := MoveToPending(q, src, ids, now);
            && AllHold(q', name, Elems(q'.active), Active)
            && AllHold(q', name, q'.scheduled.Keys, Scheduled) && AllHold(q', name, q'.retry.Keys, Retry)
            && AllHold(q', name, q'.archived.Keys, Archived) && AllHold(q', name, q'.completed.Keys, Completed)
  {
    hide Reverse;
    var q' := MoveToPending(q, src, ids, now);
    var st := if src == FromScheduled then Scheduled else Retry;
    forall x, st' | Holds(q, name, x, st') && (st' != st || x !in ids) ensures Holds(q', name, x, st') {
      assert x in ids ==> Holds(q, name, x, st);
      assert q'.tasks[x] == q.tasks[x];
    }
  }

  lemma MoveKeeps(q: QueueState, name: string, src: Source, ids: seq<string>, now: int)
    requires Inv(q, name) && NoDup(ids) && Elems(ids) <= SourceSet(q, src).Keys
    ensures Inv(MoveToPending(q, src, ids, now), name)
  {
    hide AllHold, NoDup, Reverse, MarkPending;
    MovePending(q, name, src, ids, now);
    MoveFrames(q, name, src, ids, now);
  }

  lemma BackgroundKeeps(q: QueueState, name: string, c: Cmd)
    requires Inv(q, name)
    requires !(Submits(c) || c.CDequeue?)
    requires !EndsAttempt(c)
    ensures Inv(Exec(q, c).q, name)
  {
    hide RangeByScore;
    match c
    case CForward(src, now) =>
      RangeNoDup(SourceSet(q, src), Sec(now), FORWARD_BATCH);
      MoveKeeps(q, name, src, ReadyIds(q, src, now, FORWARD_BATCH), now);
    case CDeleteExpired(now, batch) =>
      PurgeKeeps(q, name, Elems(ExpiredIds(q, now, batch)));
    case CWriteResult(id, data, now) =>
      ResultKeeps(q, name, id, data);
    case _ =>
  }

  lemma PurgeKeeps(q: QueueState, name: string, ids: set<string>)
    requires Inv(q, name) && ids <= q.completed.Keys
    ensures Inv(Purge(q, ids), name)
  {
    assert forall x | x in ids :: Holds(q, name, x, Completed);
  }

  lemma ResultKeeps(q: QueueState, name: string, id: string, data: seq<bv8>)
    requires Inv(q, name)
    ensures Inv(WriteResult(q, id, data), name)
  {
    var q' := WriteResult(q, id, data);
    assert forall x, st | Holds(q, name, x, st) :: Holds(q', name, x, st);
  }

  /** Every script keeps the invariant, whatever its arguments. */
  lemma StepKeepsInv(q: QueueState, name: string, c: Cmd)
    requires Inv(q, name) && Addressed(name, c)
    ensures Inv(Exec(q, c).q, name)
  {
    hide Inv, Enqueue, EnqueueUnique, Schedule, ScheduleUnique, Dequeue, Archive;
    match c
    case CEnqueue(m, now) => EnqueueKeeps(q, name, m, now);
    case CEnqueueUnique(m, ttl, now) => EnqueueUniqueKeeps(q, name, m, ttl, now);
    case CSchedule(m, at, now) => ScheduleKeeps(q, name, m, at);
    case CScheduleUnique(m, ttl, at, now) => ScheduleUniqueKeeps(q, name, m, ttl, at, now);
    case CDequeue(now) => DequeueKeeps(q, name, Sec(now + LEASE_DURATION));
    case CDone(_, _) => WorkerKeeps(q, name, c);
    case CMarkAsComplete(_, _) => WorkerKeeps(q, name, c);
    case CRequeue(_, _) => WorkerKeeps(q, name, c);
    case CRetry(_, _, _, _, _) => WorkerKeeps(q, name, c);
    case CArchive(m, err, now, cutoff) => ArchiveKeeps(q, name, m, err, now, cutoff);
    case _ => BackgroundKeeps(q, name, c);
  }

  // ---------------------------------------------------------------- all or nothing

  /**
   The five scripts that end an attempt fail exactly when the task is not active, and then they
   change nothing: the exits after the first LREM are unreachable.
   */
  lemma AllOrNothing(q: QueueState, name: string, c: Cmd)
    requires Inv(q, name) && Addressed(name, c)
    requires EndsAttempt(c)
    ensures var out := Exec(q, c);
            && (out.reply == Ok <==> c.m.id in q.active)
            && (out.reply != Ok ==> out.reply == NotFound && out.q == q)
  {
    if c.m.id in q.active {
      ReleaseKeeps(q, name, c.m.id);
    }
  }

  /** Dequeue hands out the message of the id that it pops, and only an id that no attempt holds. */
  lemma DequeueDelivers(q: QueueState, name: string, leaseUntil: int)
    requires Inv(q, name)
    ensures var out := Dequeue(q, leaseUntil);
            && (out.reply == Nothing <==> q.paused || q.pending == [])
            && (out.reply == Nothing ==> out.q == q)
            && (out.reply != Nothing ==>
                  && var id := q.pending[|q.pending| - 1];
                  && out.reply.Message? && out.reply.msg.id == id && out.reply.msg.queue == name
                  && q.tasks[id].msg == Some(out.reply.msg) == out.q.tasks[id].msg
                  && id !in q.active && id in out.q.active
                  && id in out.q.lease && out.q.lease[id] == leaseUntil)
  {
    if !q.paused && q.pending != [] {
      var id := q.pending[|q.pending| - 1];
      assert id in Elems(q.pending);
      assert id !in Elems(q.active);
    }
  }

  // ---------------------------------------------------------------- listing

  lemma {:induction false} StoredQueue(q: QueueState, name: string, ids: seq<string>)
    requires forall i | 0 <= i < |ids| :: Holds(q, name, ids[i], Active)
    ensures var ms := Stored(q.tasks, ids);
            && |ms| == |ids|
            && forall i | 0 <= i < |ids| :: ms[i].id == ids[i] && ms[i].queue == name && ids[i] in q.tasks && q.tasks[ids[i]].msg == Some(ms[i])
  {
    if ids != [] {
      var rest := ids[1..];
      assert forall i | 0 <= i < |rest| :: rest[i] == ids[i + 1];
      StoredQueue(q, name, rest);
      var ms := Stored(q.tasks, ids);
      assert Holds(q, name, ids[0], Active);
      assert ms == [q.tasks[ids[0]].msg.value] + Stored(q.tasks, rest);
      forall i | 0 <= i < |ids|
        ensures ms[i].id == ids[i] && ms[i].queue == name && q.tasks[ids[i]].msg == Some(ms[i])
      {
        if i > 0 { assert ids[i] == rest[i - 1] && ms[i] == Stored(q.tasks, rest)[i - 1]; }
      }
    }
  }

  /** What a recoverer lists: stored messages of active tasks with an old lease, each once. */
  lemma ListedMessages(q: QueueState, name: string, cutoff: int)
    requires Inv(q, name)
    ensures var ms := LeaseExpired(q, cutoff);
            && (forall i | 0 <= i < |ms| :: ms[i].queue == name && ms[i].id in q.active && ms[i].id in q.tasks && q.tasks[ms[i].id].msg == Some(ms[i]))
            && (forall i | 0 <= i < |ms| :: ms[i].id in q.lease && q.lease[ms[i].id] <= cutoff)
            && (forall i, j | 0 <= i < j < |ms| :: ms[i].id != ms[j].id)
            && (forall id | id in q.lease && q.lease[id] <= cutoff :: exists i :: 0 <= i < |ms| && ms[i].id == id)
  {
    hide RangeByScore, Ranked, Stored;
    var ids := RangeByScore(q.lease, cutoff, -1);
    assert forall i | 0 <= i < |ids| :: ids[i] in q.lease && ids[i] in Elems(q.active) && Holds(q, name, ids[i], Active);
    StoredQueue(q, name, ids);
    RangeNoDup(q.lease, cutoff, -1);
    var ms := LeaseExpired(q, cutoff);
    FullRange(q.lease, cutoff);
    forall id | id in q.lease && q.lease[id] <= cutoff ensures exists i :: 0 <= i < |ms| && ms[i].id == id {
      assert id in ids;
      var k :| 0 <= k < |ids| && ids[k] == id;
      assert ms[k].id == id;
    }
  }
}
