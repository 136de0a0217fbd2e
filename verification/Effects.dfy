/** What each script does to the one task it is about, and that it leaves every other task alone. */
module Effects {
  import opened Base
  import opened SortedSets
  import opened Queues
  import opened Invariant

  /** Every place, score and hash of id is as before. */
  ghost predicate Untouched(q: QueueState, q': QueueState, id: string) {
    && (id in q.pending <==> id in q'.pending)
    && (id in q.active <==> id in q'.active)
    && SameEntry(q.scheduled, q'.scheduled, id) && SameEntry(q.retry, q'.retry, id)
    && SameEntry(q.archived, q'.archived, id) && SameEntry(q.completed, q'.completed, id)
    && SameEntry(q.lease, q'.lease, id)
    && (id in q.tasks <==> id in q'.tasks)
    && (id in q.tasks ==> q.tasks[id] == q'.tasks[id])
  }

  predicate SameEntry(z: ZSet, z': ZSet, id: string) {
    (id in z <==> id in z') && (id in z ==> z[id] == z'[id])
  }

  /** The tasks that a command is about. */
  predicate Touches(q: QueueState, c: Cmd, id: string) {
    match c
    case CEnqueue(m, _) => m.id == id
    case CEnqueueUnique(m, _, _) => m.id == id
    case CSchedule(m, _, _) => m.id == id
    case CScheduleUnique(m, _, _, _) => m.id == id
    case CDequeue(_) => !q.paused && q.pending != [] && q.pending[|q.pending| - 1] == id
    case CDone(m, _) => m.id == id
    case CMarkAsComplete(m, _) => m.id == id
    case CRequeue(m, _) => m.id == id
    case CRetry(m, _, _, _, _) => m.id == id
    case CArchive(m, _, now, cutoff) => m.id == id || (m.id in q.active && id in Trimmed(q.archived[m.id := Sec(now)], cutoff))
    case CForward(src, now) => id in ReadyIds(q, src, now, FORWARD_BATCH)
    case CDeleteExpired(now, batch) => id in ExpiredIds(q, now, batch)
    case CListExpired(_) => false
    case CExtendLease(ids, _) => id in ids
    case CWriteResult(i, _, _) => i == id
    case CPause(_, _) => false
  }

  // ---------------------------------------------------------------- frames, script by script

  lemma EnqueueFrame(q: QueueState, m: TaskMessage, now: int, id: string)
    requires m.id != id
    ensures Untouched(q, Enqueue(q, m, now).q, id)
  {
  }

  lemma EnqueueUniqueFrame(q: QueueState, m: TaskMessage, ttl: int, now: int, id: string)
    requires m.id != id
    ensures Untouched(q, EnqueueUnique(q, m, ttl, now).q, id)
  {
  }

  lemma ScheduleFrame(q: QueueState, m: TaskMessage, at: int, id: string)
    requires m.id != id
    ensures Untouched(q, Schedule(q, m, at).q, id)
  {
  }

  lemma ScheduleUniqueFrame(q: QueueState, m: TaskMessage, ttl: int, at: int, now: int, id: string)
    requires m.id != id
    ensures Untouched(q, ScheduleUnique(q, m, ttl, at, now).q, id)
  {
  }

  lemma DequeueFrame(q: QueueState, leaseUntil: int, id: string)
    requires q.paused || q.pending == [] || q.pending[|q.pending| - 1] != id
    ensures Untouched(q, Dequeue(q, leaseUntil).q, id)
  {
    if !q.paused && q.pending != [] {
      var n := |q.pending| - 1;
      assert q.pending == q.pending[..n] + [q.pending[n]];
    }
  }

  lemma ReleaseFrame(q: QueueState, rid: string, id: string)
    requires rid != id
    ensures Untouched(q, Release(q, rid).q, id)
  {
    hide LRem;
  }

  lemma DoneFrame(q: QueueState, m: TaskMessage, now: int, id: string)
    requires m.id != id
    ensures Untouched(q, Done(q, m, now).q, id)
  {
    hide Release;
    ReleaseFrame(q, m.id, id);
  }

  lemma MarkAsCompleteFrame(q: QueueState, m: TaskMessage, now: int, id: string)
    requires m.id != id
    ensures Untouched(q, MarkAsComplete(q, m, now).q, id)
  {
    hide Release;
    ReleaseFrame(q, m.id, id);
  }

  lemma RequeueFrame(q: QueueState, m: TaskMessage, id: string)
    requires m.id != id
    ensures Untouched(q, Requeue(q, m).q, id)
  {
    hide Release;
    ReleaseFrame(q, m.id, id);
  }

  lemma RetryFrame(q: QueueState, m: TaskMessage, at: int, err: string, isFailure: bool, now: int, id: string)
    requires m.id != id
    ensures Untouched(q, RetryTask(q, m, at, err, isFailure, now).q, id)
  {
    hide Release;
    ReleaseFrame(q, m.id, id);
  }

  lemma ArchiveFrame(q: QueueState, m: TaskMessage, err: string, now: int, cutoff: int, id: string)
    requires m.id != id && (m.id !in q.active || id !in Trimmed(q.archived[m.id := Sec(now)], cutoff))
    ensures Untouched(q, Archive(q, m, err, now, cutoff).q, id)
  {
    hide Trimmed, LRem;
    if m.id !in q.active {
    } else {
      ReleaseFrame(q, m.id, id);
      assert Release(q, m.id).q.archived == q.archived;
    }
  }

  lemma ForwardFrame(q: QueueState, src: Source, now: int, limit: int, id: string)
    requires id !in ReadyIds(q, src, now, limit)
    ensures Untouched(q, Forward(q, src, now, limit).q, id)
  {
    hide ReadyIds;
    MoveFrame(q, src, ReadyIds(q, src, now, limit), now, id);
  }

  lemma MoveFrame(q: QueueState, src: Source, ids: seq<string>, now: int, id: string)
    requires id !in ids
    ensures Untouched(q, MoveToPending(q, src, ids, now), id)
  {
    hide Reverse;
  }

  lemma DeleteExpiredFrame(q: QueueState, now: int, limit: int, id: string)
    requires id !in ExpiredIds(q, now, limit)
    ensures Untouched(q, DeleteExpired(q, now, limit).q, id)
  {
    hide ExpiredIds;
  }

  /** A command leaves alone every task that it is not about. */
  lemma StepFrame(q: QueueState, c: Cmd, id: string)
    requires !Touches(q, c, id)
    ensures Untouched(q, Exec(q, c).q, id)
  {
    hide Enqueue, EnqueueUnique, Schedule, ScheduleUnique, Dequeue, Done, MarkAsComplete, Requeue, RetryTask, Archive,
         Forward, DeleteExpired, RangeByScore, Trimmed;
    match c
    case CEnqueue(m, now) => EnqueueFrame(q, m, now, id);
    case CEnqueueUnique(m, ttl, now) => EnqueueUniqueFrame(q, m, ttl, now, id);
    case CSchedule(m, at, now) => ScheduleFrame(q, m, at, id);
    case CScheduleUnique(m, ttl, at, now) => ScheduleUniqueFrame(q, m, ttl, at, now, id);
    case CDequeue(now) => DequeueFrame(q, Sec(now + LEASE_DURATION), id);
    case CDone(m, now) => DoneFrame(q, m, now, id);
    case CMarkAsComplete(m, now) => MarkAsCompleteFrame(q, m, now, id);
    case CRequeue(m, now) => RequeueFrame(q, m, id);
    case CRetry(m, at, err, isFailure, now) => RetryFrame(q, m, at, err, isFailure, now, id);
    case CArchive(m, err, now, cutoff) => ArchiveFrame(q, m, err, now, cutoff, id);
    case CForward(src, now) => ForwardFrame(q, src, now, FORWARD_BATCH, id);
    case CDeleteExpired(now, batch) => DeleteExpiredFrame(q, now, batch, id);
    case _ =>
  }

  // ---------------------------------------------------------------- the task a script is about

  /** Where a task stands: the state of its place, if it has one. */
  ghost predicate At(q: QueueState, id: string, st: TaskState) {
    match st
    case Pending => id in q.pending
    case Active => id in q.active
    case Scheduled => id in q.scheduled
    case Retry => id in q.retry
    case Archived => id in q.archived
    case Completed => id in q.completed
  }

  /** Where a task stands, its hash says so, and it stands nowhere else. */
  lemma AtHolds(q: QueueState, name: string, id: string, st: TaskState)
    requires Inv(q, name) && At(q, id, st)
    ensures Holds(q, name, id, st) && Placed(q, id)
    ensures forall st' | At(q, id, st') :: st' == st
  {
    assert id in q.pending <==> id in Elems(q.pending);
    assert id in q.active <==> id in Elems(q.active);
  }

  /**
   What a client is told: a unique call is refused while its key's lock has not expired, any call
   while the id has a hash, and otherwise the call goes through.  The lock is taken before the id is
   looked at, and lasts for the lifetime asked for.
   */
  lemma ClientReply(q: QueueState, c: Cmd)
    requires Submits(c)
    ensures var out := Exec(q, c);
            var key := c.m.uniqueKey;
            var held := IsUnique(c) && key in q.locks && c.now <= q.locks[key].expireAt;
            && out.reply == (if IsUnique(c) && c.ttl <= 0 then BadExpiry
                             else if held then Duplicate
                             else if c.m.id in q.tasks then Conflict
                             else Ok)
            && out.q.locks == if IsUnique(c) && c.ttl > 0 && !held
                              then q.locks[key := Lock(c.m.id, c.now + c.ttl * SECOND)] else q.locks
  {
  }

  /** Nothing but these calls touches locks, and nothing but pausing and resuming the pause flag. */
  lemma StepGlobals(q: QueueState, c: Cmd)
    ensures var q' := Exec(q, c).q;
            && q'.paused == (if c.CPause? then c.on else q.paused)
            && (!IsUnique(c) && !c.CDone? ==> q'.locks == q.locks)
  {
    hide Enqueue, EnqueueUnique, Schedule, ScheduleUnique, Forward, DeleteExpired, LeaseExpired, Rescore, HashOf,
         Dequeue, Done, MarkAsComplete, Requeue, RetryTask, Archive;
    match c
    case CForward(src, now) => ForwardGlobals(q, src, now);
    case CDeleteExpired(now, batch) => ExpiryGlobals(q, now, batch);
    case CDequeue(now) => DequeueGlobals(q, Sec(now + LEASE_DURATION));
    case _ => if Submits(c) { ClientGlobals(q, c); } else if EndsAttempt(c) { EndingGlobals(q, c); }
  }

  lemma ForwardGlobals(q: QueueState, src: Source, now: int)
    ensures var q' := Forward(q, src, now, FORWARD_BATCH).q; q'.paused == q.paused && q'.locks == q.locks
  {
    hide ReadyIds, Reverse, MarkPending;
  }

  lemma ExpiryGlobals(q: QueueState, now: int, batch: int)
    ensures var q' := DeleteExpired(q, now, batch).q; q'.paused == q.paused && q'.locks == q.locks
  {
    hide ExpiredIds;
  }

  lemma DequeueGlobals(q: QueueState, leaseUntil: int)
    ensures var q' := Dequeue(q, leaseUntil).q; q'.paused == q.paused && q'.locks == q.locks
  {
    hide HashOf;
  }

  lemma ClientGlobals(q: QueueState, c: Cmd)
    requires Submits(c)
    ensures var q' := Exec(q, c).q; q'.paused == q.paused && (!IsUnique(c) ==> q'.locks == q.locks)
  {
    hide Locked;
  }

  lemma EndingGlobals(q: QueueState, c: Cmd)
    requires EndsAttempt(c)
    ensures var q' := Exec(q, c).q; q'.paused == q.paused && (!c.CDone? ==> q'.locks == q.locks)
  {
    hide Release, SetMsgState, SetState, Trimmed;
    ReleaseGlobals(q, c.m.id);
  }

  lemma ReleaseGlobals(q: QueueState, id: string)
    ensures var q' := Release(q, id).q; q'.paused == q.paused && q'.locks == q.locks
  {
    hide LRem;
  }

  /** Pausing and resuming change nothing but the flag. */
  lemma PauseEffect(q: QueueState, on: bool, now: int)
    ensures Exec(q, CPause(on, now)) == Out(q.(paused := on), Ok)
  {
  }

  /** A task that is accepted was unknown, and stands where it was asked for, with the message as sent. */
  lemma ClientTarget(q: QueueState, name: string, c: Cmd)
    requires Inv(q, name) && Addressed(name, c)
    requires Submits(c)
    ensures var out := Exec(q, c); var now := c.CEnqueue? || c.CEnqueueUnique?;
            && (out.reply == Ok ==> c.m.id !in q.tasks && !Placed(q, c.m.id))
            && (out.reply == Ok ==> c.m.id in out.q.tasks && out.q.tasks[c.m.id].msg == Some(c.m))
            && (out.reply == Ok ==> At(out.q, c.m.id, if now then Pending else Scheduled))
            && (out.reply == Ok && now ==> out.q.pending == [c.m.id] + q.pending)
            && (out.reply == Ok && !now ==> out.q.scheduled[c.m.id] == c.at)
            && (out.reply == Ok ==>
                  out.q.tasks[c.m.id].pendingSince == (if now then Some(c.now) else None)
                  && out.q.tasks[c.m.id].uniqueKey == (if IsUnique(c) then Some(c.m.uniqueKey) else None)
                  && out.q.tasks[c.m.id].result == None)
            && (out.reply != Ok ==> out.q == q.(locks := out.q.locks))
  {
    hide Inv;
    if c.m.id !in q.tasks { Unplaced(q, name, c.m.id); }
  }

  lemma DoneTarget(q: QueueState, name: string, m: TaskMessage, now: int)
    requires Inv(q, name) && m.queue == name && m.id in q.active
    ensures var q' := Done(q, m, now).q;
            m.id !in q'.active && m.id !in q'.lease && !Placed(q', m.id) && m.id !in q'.tasks
  {
    hide Inv, LRem;
    ReleaseKeeps(q, name, m.id);
  }

  lemma CompleteTarget(q: QueueState, name: string, m: TaskMessage, now: int)
    requires Inv(q, name) && m.queue == name && m.id in q.active
    ensures var q' := MarkAsComplete(q, m, now).q;
            && m.id !in q'.active && m.id !in q'.lease && m.id in q.tasks && m.id in q'.tasks
            && At(q', m.id, Completed) && q'.completed[m.id] == Sec(now) + m.retention
            && q'.tasks[m.id] == q.tasks[m.id].(msg := Some(m.(completedAt := Sec(now))), state := Some(Completed))
  {
    hide Inv, LRem;
    ReleaseKeeps(q, name, m.id);
  }

  lemma RequeueTarget(q: QueueState, name: string, m: TaskMessage)
    requires Inv(q, name) && m.queue == name && m.id in q.active
    ensures var q' := Requeue(q, m).q;
            && m.id !in q'.active && m.id !in q'.lease && m.id in q.tasks && m.id in q'.tasks
            && At(q', m.id, Pending) && q'.pending == q.pending + [m.id]
            && q'.tasks[m.id] == q.tasks[m.id].(state := Some(Pending))
  {
    hide Inv, LRem;
    ReleaseKeeps(q, name, m.id);
  }

  /** m after a failure: the error and its second, and one more retry if the failure counts. */
  ghost predicate Records(m': TaskMessage, m: TaskMessage, err: string, counted: bool, now: int) {
    && m'.errorMsg == err && m'.lastFailedAt == Sec(now) && m'.retried == (if counted then m.retried + 1 else m.retried)
    && m' == m.(errorMsg := m'.errorMsg, lastFailedAt := m'.lastFailedAt, retried := m'.retried)
  }

  lemma RetryTarget(q: QueueState, name: string, m: TaskMessage, at: int, err: string, isFailure: bool, now: int)
    requires Inv(q, name) && m.queue == name && m.id in q.active
    ensures var q' := RetryTask(q, m, at, err, isFailure, now).q;
            && m.id !in q'.active && m.id !in q'.lease && m.id in q.tasks && m.id in q'.tasks
            && At(q', m.id, Retry) && q'.retry[m.id] == at
            && q'.tasks[m.id] == q.tasks[m.id].(msg := q'.tasks[m.id].msg, state := Some(TaskState.Retry))
            && q'.tasks[m.id].msg.Some? && Records(q'.tasks[m.id].msg.value, m, err, isFailure, now)
  {
    hide Inv, LRem;
    ReleaseKeeps(q, name, m.id);
  }

  /** A worker script on an active task; for Archive see ArchiveTarget. */
  lemma WorkerTarget(q: QueueState, name: string, c: Cmd)
    requires c.CDone? || c.CMarkAsComplete? || c.CRequeue? || c.CRetry?
    requires Inv(q, name) && Addressed(name, c) && c.m.id in q.active
    ensures var q' := Exec(q, c).q; var id := c.m.id;
            && id !in q'.active && id !in q'.lease
            && (c.CDone? ==> !Placed(q', id) && id !in q'.tasks)
            && (!c.CDone? ==> id in q.tasks && id in q'.tasks)
            && (c.CMarkAsComplete? ==> At(q', id, Completed) && q'.completed[id] == Sec(c.now) + c.m.retention)
            && (c.CMarkAsComplete? ==> q'.tasks[id].msg == Some(c.m.(completedAt := Sec(c.now))))
            && (c.CMarkAsComplete? ==> q'.tasks[id].state == Some(Completed))
            && (c.CRequeue? ==> At(q', id, Pending) && q'.pending == q.pending + [id] && q'.tasks[id].msg == q.tasks[id].msg)
            && (c.CRetry? ==> At(q', id, Retry) && q'.retry[id] == c.at)
            && (c.CRetry? ==> q'.tasks[id].msg.Some? && Records(q'.tasks[id].msg.value, c.m, c.err, c.isFailure, c.now))
            && (!c.CDone? ==> q'.tasks[id] == q.tasks[id].(msg := q'.tasks[id].msg, state := q'.tasks[id].state))
  {
    hide Inv, Done, MarkAsComplete, Requeue, RetryTask, Placed, Records;
    AtHolds(q, name, c.m.id, Active);
    match c
    case CDone(m, now) => DoneTarget(q, name, m, now);
    case CMarkAsComplete(m, now) => CompleteTarget(q, name, m, now);
    case CRequeue(m, _) => RequeueTarget(q, name, m);
    case CRetry(m, at, err, isFailure, now) => RetryTarget(q, name, m, at, err, isFailure, now);
  }

  lemma ExecArchive(q: QueueState, c: Cmd)
    requires c.CArchive?
    ensures Exec(q, c) == Archive(q, c.m, c.err, c.now, c.cutoff)
  {
  }

  lemma ExtendEffect(q: QueueState, ids: set<string>, now: int)
    ensures Exec(q, CExtendLease(ids, now)).q == ExtendLease(q, ids, Sec(now + LEASE_DURATION))
  {
  }

  lemma ResultEffect(q: QueueState, id: string, data: seq<bv8>, now: int)
    ensures Exec(q, CWriteResult(id, data, now)) == Out(q.(tasks := q.tasks[id := HashOf(q.tasks, id).(result := Some(data))]), Ok)
  {
  }

  lemma DequeueEffect(q: QueueState, name: string, now: int)
    requires Inv(q, name)
    ensures var out := Exec(q, CDequeue(now));
            if q.paused || q.pending == [] then out == Out(q, Nothing)
            else
              var n := |q.pending| - 1;
              var id := q.pending[n];
              && id in q.tasks && q.tasks[id].msg.Some?
              && out == Out(q.(pending := q.pending[..n], active := [id] + q.active,
                               tasks := q.tasks[id := q.tasks[id].(state := Some(Active), pendingSince := None)],
                               lease := q.lease[id := Sec(now + 30 * SECOND)]),
                            Message(q.tasks[id].msg.value))
  {
    hide Inv;
    if !q.paused && q.pending != [] { AtHolds(q, name, q.pending[|q.pending| - 1], Pending); }
  }

  lemma ExecDeleteExpired(q: QueueState, now: int, batch: int)
    ensures Exec(q, CDeleteExpired(now, batch)) == DeleteExpired(q, now, batch)
  {
    hide DeleteExpired;
  }

  lemma ArchiveTarget(q: QueueState, name: string, m: TaskMessage, err: string, now: int, cutoff: int)
    requires Inv(q, name) && m.queue == name && m.id in q.active
    ensures var q' := Archive(q, m, err, now, cutoff).q;
            var gone := Trimmed(q.archived[m.id := Sec(now)], cutoff);
            && m.id !in q'.active && m.id !in q'.lease
            && (m.id in gone ==> !Placed(q', m.id))
            && (m.id !in gone ==> At(q', m.id, Archived) && q'.archived[m.id] == Sec(now))
            && m.id in q'.tasks && q'.tasks[m.id].msg.Some? && Records(q'.tasks[m.id].msg.value, m, err, false, now)
            && m.id in q.tasks
            && (m.id !in gone ==> q'.tasks[m.id] == q.tasks[m.id].(msg := q'.tasks[m.id].msg, state := Some(Archived)))
            && (forall x | x in gone && x != m.id :: At(q, x, Archived) && !Placed(q', x) && x !in q'.tasks)
  {
    hide Inv, LRem, Trimmed;
    ReleaseKeeps(q, name, m.id);
    var r := Release(q, m.id).q;
    var gone := Trimmed(q.archived[m.id := Sec(now)], cutoff);
    forall x | x in gone && x != m.id ensures At(q, x, Archived) && !Placed(Archive(q, m, err, now, cutoff).q, x) {
      AtHolds(r, name, x, Archived);
      assert !At(r, x, Pending) && !At(r, x, Active) && !At(r, x, Scheduled) && !At(r, x, Retry) && !At(r, x, Completed);
    }
  }

  lemma ForwardTarget(q: QueueState, name: string, src: Source, now: int, limit: int, id: string)
    requires Inv(q, name) && id in ReadyIds(q, src, now, limit)
    ensures var q' := Forward(q, src, now, limit).q;
            && At(q, id, if src == FromScheduled then Scheduled else Retry)
            && At(q', id, Pending) && id !in q'.active && id in q.tasks && id in q'.tasks
            && q'.tasks[id] == q.tasks[id].(state := Some(Pending), pendingSince := Some(now))
  {
    hide Inv, RangeByScore, Reverse;
    var st := if src == FromScheduled then Scheduled else Retry;
    AtHolds(q, name, id, st);
    assert !At(q, id, Active);
  }

  lemma DeleteExpiredTarget(q: QueueState, name: string, now: int, limit: int, id: string)
    requires Inv(q, name) && id in ExpiredIds(q, now, limit)
    ensures At(q, id, Completed) && q.completed[id] <= Sec(now)
    ensures !Placed(DeleteExpired(q, now, limit).q, id) && id !in DeleteExpired(q, now, limit).q.tasks
  {
    hide Inv, RangeByScore;
    AtHolds(q, name, id, Completed);
    assert !At(q, id, Pending) && !At(q, id, Active) && !At(q, id, Scheduled) && !At(q, id, Retry) && !At(q, id, Archived);
  }
}
