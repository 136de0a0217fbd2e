/**
 The broker as the source runs it: a class that holds the keys of one queue, with one method per
 Lua script, written as the script's Redis calls in their order.  Each method is proved to have
 the effect that Queues gives it.
 */
module Broker {
  import opened Base
  import opened SortedSets
  import opened Queues
  import opened Invariant
  import opened Effects
  import opened Runs
  import opened Batches

  class RedisQueue {
    const name: string
    var pending: seq<string>
    var active: seq<string>
    var scheduled: ZSet
    var retry: ZSet
    var archived: ZSet
    var completed: ZSet
    var lease: ZSet
    var tasks: map<string, Hash>
    var locks: map<string, Lock>
    var paused: bool

    function View(): QueueState
      reads this
    {
      QueueState(pending, active, scheduled, retry, archived, completed, lease, tasks, locks, paused)
    }

    ghost predicate Valid()
      reads this
    {
      Inv(View(), name)
    }

    constructor (name: string)
      ensures this.name == name && Valid() && View() == EMPTY_QUEUE
    {
      this.name := name;
      pending, active := [], [];
      scheduled, retry, archived, completed, lease := map[], map[], map[], map[], map[];
      tasks, locks, paused := map[], map[], false;
    }

    method Enqueue(m: TaskMessage, now: int) returns (r: Reply)
      requires Valid() && m.queue == name
      modifies this
      ensures Valid() && Out(View(), r) == old(Exec(View(), CEnqueue(m, now)))
    {
      hide Inv;
      StepKeepsInv(View(), name, CEnqueue(m, now));
      if m.id in tasks { return Conflict; }
      tasks := tasks[m.id := Hash(Some(m), Some(Pending), Some(now), None, None)];
      pending := [m.id] + pending;
      r := Ok;
    }

    method EnqueueUnique(m: TaskMessage, ttl: int, now: int) returns (r: Reply)
      requires Valid() && m.queue == name
      modifies this
      ensures Valid() && Out(View(), r) == old(Exec(View(), CEnqueueUnique(m, ttl, now)))
    {
      hide Inv, Locked;
      ghost var q := View();
      StepKeepsInv(q, name, CEnqueueUnique(m, ttl, now));
      r := TakeLock(m, ttl, now);
      assert View() == q.(locks := locks);
      if r != Ok { return; }
      if m.id in tasks { return Conflict; }
      tasks := tasks[m.id := Hash(Some(m), Some(Pending), Some(now), Some(m.uniqueKey), None)];
      pending := [m.id] + pending;
    }

    /** `SET key id NX EX ttl`. */
    method TakeLock(m: TaskMessage, ttl: int, now: int) returns (r: Reply)
      modifies this`locks
      ensures r == if ttl <= 0 then BadExpiry else if old(Locked(View(), m.uniqueKey, now)) then Duplicate else Ok
      ensures locks == if r == Ok then old(locks)[m.uniqueKey := Lock(m.id, now + ttl * SECOND)] else old(locks)
    {
      if ttl <= 0 { return BadExpiry; }
      if m.uniqueKey in locks && now <= locks[m.uniqueKey].expireAt { return Duplicate; }
      locks := locks[m.uniqueKey := Lock(m.id, now + ttl * SECOND)];
      r := Ok;
    }

    method Schedule(m: TaskMessage, at: int, now: int) returns (r: Reply)
      requires Valid() && m.queue == name
      modifies this
      ensures Valid() && Out(View(), r) == old(Exec(View(), CSchedule(m, at, now)))
    {
      hide Inv;
      StepKeepsInv(View(), name, CSchedule(m, at, now));
      if m.id in tasks { return Conflict; }
      tasks := tasks[m.id := Hash(Some(m), Some(Scheduled), None, None, None)];
      scheduled := scheduled[m.id := at];
      r := Ok;
    }

    method ScheduleUnique(m: TaskMessage, ttl: int, at: int, now: int) returns (r: Reply)
      requires Valid() && m.queue == name
      modifies this
      ensures Valid() && Out(View(), r) == old(Exec(View(), CScheduleUnique(m, ttl, at, now)))
    {
      hide Inv, Locked;
      ghost var q := View();
      StepKeepsInv(q, name, CScheduleUnique(m, ttl, at, now));
      r := TakeLock(m, ttl, now);
      assert View() == q.(locks := locks);
      if r != Ok { return; }
      if m.id in tasks { return Conflict; }
      tasks := tasks[m.id := Hash(Some(m), Some(Scheduled), None, Some(m.uniqueKey), None)];
      scheduled := scheduled[m.id := at];
    }

    method Dequeue(now: int) returns (r: Reply)
      requires Valid()
      modifies this
      ensures Valid() && Out(View(), r) == old(Exec(View(), CDequeue(now)))
    {
      hide Inv, Exec, SetState;
      StepKeepsInv(View(), name, CDequeue(now));
      DequeueEffect(View(), name, now);
      if paused || pending == [] { return Nothing; }
      var last := |pending| - 1;
      var id := pending[last];
      pending, active := pending[..last], [id] + active;
      NowActive(tasks, id);
      tasks := SetState(tasks, id, Active);
      tasks := tasks[id := tasks[id].(pendingSince := None)];
      lease := lease[id := Sec(now + LEASE_DURATION)];
      r := Message(tasks[id].msg.value);
    }

    /** The two removals that start every script ending an attempt; the second cannot fail. */
    method Remove(id: string) returns (r: Reply)
      requires Valid()
      modifies this`active, this`lease
      ensures Out(View(), r) == old(Release(View(), id))
      ensures r == if id in old(active) then Ok else NotFound
    {
      if id in active { ReleaseKeeps(View(), name, id); }
      if id !in active { return NotFound; }
      active := LRem(active, id);
      if id !in lease { return NotFound; }
      lease := lease - {id};
      r := Ok;
    }

    method Done(m: TaskMessage, now: int) returns (r: Reply)
      requires Valid() && m.queue == name
      modifies this
      ensures Valid() && Out(View(), r) == old(Exec(View(), CDone(m, now)))
    {
      hide Inv, LRem;
      StepKeepsInv(View(), name, CDone(m, now));
      r := Remove(m.id);
      if r != Ok { return; }
      if m.id !in tasks { return NotFound; }
      tasks := tasks - {m.id};
      if m.uniqueKey != "" && m.uniqueKey in locks && now <= locks[m.uniqueKey].expireAt && locks[m.uniqueKey].holder == m.id {
        locks := locks - {m.uniqueKey};
      }
    }

    method MarkAsComplete(m: TaskMessage, now: int) returns (r: Reply)
      requires Valid() && m.queue == name
      modifies this
      ensures Valid() && Out(View(), r) == old(Exec(View(), CMarkAsComplete(m, now)))
    {
      hide Inv, LRem;
      StepKeepsInv(View(), name, CMarkAsComplete(m, now));
      var stored := m.(completedAt := Sec(now));
      r := Remove(m.id);
      if r != Ok { return; }
      var isNew := m.id !in completed;
      completed := completed[m.id := Sec(now) + m.retention];
      if !isNew { return Internal; }
      tasks := SetMsgState(tasks, m.id, stored, Completed);
    }

    method Requeue(m: TaskMessage, now: int) returns (r: Reply)
      requires Valid() && m.queue == name
      modifies this
      ensures Valid() && Out(View(), r) == old(Exec(View(), CRequeue(m, now)))
    {
      hide Inv, LRem;
      StepKeepsInv(View(), name, CRequeue(m, now));
      r := Remove(m.id);
      if r != Ok { return; }
      pending := pending + [m.id];
      tasks := SetState(tasks, m.id, Pending);
    }

    method Retry(m: TaskMessage, at: int, err: string, isFailure: bool, now: int) returns (r: Reply)
      requires Valid() && m.queue == name
      modifies this
      ensures Valid() && Out(View(), r) == old(Exec(View(), CRetry(m, at, err, isFailure, now)))
    {
      hide Inv, LRem;
      StepKeepsInv(View(), name, CRetry(m, at, err, isFailure, now));
      var modified := m;
      if isFailure { modified := modified.(retried := modified.retried + 1); }
      modified := modified.(errorMsg := err);
      modified := modified.(lastFailedAt := Sec(now));
      r := Remove(m.id);
      if r != Ok { return; }
      retry := retry[m.id := at];
      tasks := SetMsgState(tasks, m.id, modified, TaskState.Retry);
    }

    /** Archives the task, then deletes the entries that are too old and those beyond the size limit. */
    method Archive(m: TaskMessage, err: string, now: int, cutoff: int) returns (r: Reply)
      requires Valid() && m.queue == name
      modifies this
      ensures Valid() && Out(View(), r) == old(Exec(View(), CArchive(m, err, now, cutoff)))
    {
      hide Inv, Exec, LRem, Trimmed, Release;
      StepKeepsInv(View(), name, CArchive(m, err, now, cutoff));
      ExecArchive(View(), CArchive(m, err, now, cutoff));
      var modified := m.(errorMsg := err, lastFailedAt := Sec(now));
      r := Remove(m.id);
      if r != Ok { return; }
      archived := archived[m.id := Sec(now)];
      Trim(cutoff);
      tasks := SetMsgState(tasks, m.id, modified, Archived);
    }

    /** The two clean-ups of archiveCmd: entries that are too old, then those beyond the size limit. */
    method Trim(cutoff: int)
      modifies this`tasks, this`archived
      ensures tasks == old(tasks) - Trimmed(old(archived), cutoff)
      ensures archived == old(archived) - Trimmed(old(archived), cutoff)
    {
      hide RangeByScore, Ranked, Excess, Due;
      var stale := RangeByScore(archived, cutoff, -1);
      StaleIds(archived, cutoff);
      DropEntries(stale);
      var extra := Excess(archived);
      DropEntries(extra);
      DropTwice(old(archived), old(tasks), Elems(stale), Elems(extra));
    }

    /** `DEL` for each hash, then `ZREM` for all of them. */
    method DropEntries(ids: seq<string>)
      modifies this`tasks, this`archived
      ensures tasks == old(tasks) - Elems(ids) && archived == old(archived) - Elems(ids)
    {
      for i := 0 to |ids|
        invariant tasks == old(tasks) - Elems(ids[..i]) && archived == old(archived)
      {
        assert ids[..i + 1] == ids[..i] + [ids[i]];
        tasks := tasks - {ids[i]};
      }
      assert ids[..|ids|] == ids;
      archived := archived - Elems(ids);
    }

    /** forwardCmd: one batch from the scheduled or the retry set. */
    method Forward(src: Source, now: int) returns (n: nat)
      requires Valid()
      modifies this
      ensures Valid() && Out(View(), Count(n)) == old(Exec(View(), CForward(src, now)))
    {
      hide Inv, Exec, RangeByScore, MoveToPending, MovedOne;
      StepKeepsInv(View(), name, CForward(src, now));
      ExecForward(View(), src, now);
      var ids := RangeByScore(if src == FromScheduled then scheduled else retry, Sec(now), FORWARD_BATCH);
      ghost var q := View();
      MoveNone(q, src, now);
      for i := 0 to |ids|
        invariant View() == MoveToPending(q, src, ids[..i], now)
      {
        MoveOneMore(q, src, ids[..i], ids[i], now);
        assert ids[..i + 1] == ids[..i] + [ids[i]];
        MoveOne(src, ids[i], now);
      }
      assert ids[..|ids|] == ids;
      n := |ids|;
    }

    /** The loop body of forwardCmd. */
    method MoveOne(src: Source, id: string, now: int)
      modifies this
      ensures View() == old(MovedOne(View(), src, id, now))
    {
      pending := [id] + pending;
      if src == FromScheduled { scheduled := scheduled - {id}; } else { retry := retry - {id}; }
      tasks := tasks[id := HashOf(tasks, id).(state := Some(Pending), pendingSince := Some(now))];
    }

    /**
     forwardAll: batches until one comes back empty, first from scheduled and then from retry.  The
     result is that of one unbounded move of each, after ceil(ready / 100) + 1 calls for each.
     */
    method ForwardAll(now: int) returns (calls: nat)
      requires Valid()
      modifies this
      ensures Valid()
      ensures View() == old(ForwardEverything(ForwardEverything(View(), FromScheduled, now), FromRetry, now))
      ensures calls == old(Filled(|ReadyIds(View(), FromScheduled, now, -1)|, 100) + 1
                         + Filled(|ReadyIds(View(), FromRetry, now, -1)|, 100) + 1)
    {
      hide Inv, RangeByScore;
      var a := Drain(FromScheduled, now);
      OtherSourceSame(old(View()), now);
      var b := Drain(FromRetry, now);
      calls := a + b;
    }

    method Drain(src: Source, now: int) returns (calls: nat)
      requires Valid()
      modifies this
      ensures Valid() && View() == old(ForwardEverything(View(), src, now))
      ensures calls == Filled(old(|ReadyIds(View(), src, now, -1)|), FORWARD_BATCH) + 1
    {
      hide Inv, ReadyIds, MoveToPending;
      ghost var all := ReadyIds(View(), src, now, -1);
      ghost var moved := 0;
      ghost var q := View();
      var n := 1;
      calls := 0;
      MoveNone(q, src, now);
      assert all[..0] == [] && all[0..] == all;
      while n != 0
        invariant Valid() && moved <= |all|
        invariant View() == MoveToPending(q, src, all[..moved], now)
        invariant ReadyIds(View(), src, now, -1) == all[moved..]
        invariant n != 0 ==> moved == calls * FORWARD_BATCH || moved == |all|
        invariant n != 0 ==> calls == Filled(moved, FORWARD_BATCH)
        invariant n == 0 ==> moved == |all| && calls == Filled(|all|, FORWARD_BATCH) + 1
        decreases |all| - moved, n != 0
      {
        NextBatch(View(), src, now, FORWARD_BATCH);
        MoveMore(q, src, all, moved, Min(FORWARD_BATCH, |all| - moved), now);
        n := Forward(src, now);
        moved := moved + n;
        calls := calls + 1;
      }
      assert all[..moved] == all;
    }

    /** deleteExpiredCompletedTasks: one batch. */
    method DeleteExpiredBatch(now: int, batch: int) returns (n: nat)
      requires Valid()
      modifies this
      ensures Valid() && Out(View(), Count(n)) == old(Exec(View(), CDeleteExpired(now, batch)))
    {
      hide Inv, Exec, RangeByScore;
      ghost var q := View();
      StepKeepsInv(q, name, CDeleteExpired(now, batch));
      ExecDeleteExpired(q, now, batch);
      var ids := RangeByScore(completed, Sec(now), batch);
      DeleteAll(ids);
      n := |ids|;
      assert View() == Purge(q, Elems(ids));
    }

    method DeleteAll(ids: seq<string>)
      modifies this`tasks, this`completed
      ensures tasks == old(tasks) - Elems(ids) && completed == old(completed) - Elems(ids)
    {
      for i := 0 to |ids|
        invariant tasks == old(tasks) - Elems(ids[..i]) && completed == old(completed) - Elems(ids[..i])
      {
        assert ids[..i + 1] == ids[..i] + [ids[i]];
        tasks := tasks - {ids[i]};
        completed := completed - {ids[i]};
      }
      assert ids[..|ids|] == ids;
    }

    /** Any nonzero batch size deletes exactly the expired tasks; zero deletes nothing. */
    method DeleteExpiredCompletedTasks(now: int, batch: int)
      requires Valid()
      modifies this
      ensures Valid()
      ensures View() == if batch == 0 then old(View()) else old(DeleteExpired(View(), now, -1).q)
      ensures batch != 0 ==>
        && (forall id :: id in completed <==> id in old(completed) && old(completed)[id] > Sec(now))
        && (forall id :: id in tasks <==> id in old(tasks) && !(id in old(completed) && old(completed)[id] <= Sec(now)))
        && (forall id | id in tasks :: tasks[id] == old(tasks)[id])
    {
      hide Inv, ExpiredIds, Exec, Purge;
      PurgeNone(View());
      ExpiryIsComplete(View(), now);
      ghost var q := View();
      ghost var gone: set<string> := {};
      while true
        invariant Valid() && View() == Purge(q, gone)
        invariant gone <= Elems(ExpiredIds(q, now, -1))
        invariant batch == 0 ==> gone == {}
        decreases |View().completed|
      {
        ExpiredAfter(q, gone, now, batch);
        ExecDeleteExpired(Purge(q, gone), now, batch);
        var n := DeleteExpiredBatch(now, batch);
        assert n == 0 ==> gone + Elems(ExpiredIds(Purge(q, gone), now, batch)) == gone;
        gone := gone + Elems(ExpiredIds(Purge(q, gone), now, batch));
        if n == 0 { return; }
      }
    }

    method ListLeaseExpired(cutoff: int) returns (msgs: seq<TaskMessage>)
      ensures msgs == LeaseExpired(View(), cutoff)
    {
      hide RangeByScore, Stored;
      var ids := RangeByScore(lease, cutoff, -1);
      msgs := [];
      assert ids[0..] == ids && [] + Stored(tasks, ids) == Stored(tasks, ids);
      for i := 0 to |ids|
        invariant msgs + Stored(tasks, ids[i..]) == Stored(tasks, ids)
      {
        StoredNext(tasks, ids, i);
        var h := HashOf(tasks, ids[i]);
        if h.msg.Some? {
          assert msgs + ([h.msg.value] + Stored(tasks, ids[i + 1..])) == msgs + [h.msg.value] + Stored(tasks, ids[i + 1..]);
          msgs := msgs + [h.msg.value];
        }
      }
      StoredNone(tasks);
      assert ids[|ids|..] == [] && msgs + [] == msgs;
    }

    method ExtendLease(ids: seq<string>, now: int) returns (expireAt: int)
      requires Valid()
      modifies this`lease
      ensures Valid() && View() == old(Exec(View(), CExtendLease(Elems(ids), now)).q)
      ensures expireAt == now + LEASE_DURATION
    {
      hide Inv, Exec;
      StepKeepsInv(View(), name, CExtendLease(Elems(ids), now));
      ExtendEffect(View(), Elems(ids), now);
      expireAt := now + LEASE_DURATION;
      for i := 0 to |ids|
        invariant lease == Rescore(old(lease), Elems(ids[..i]), Sec(expireAt))
      {
        assert ids[..i + 1] == ids[..i] + [ids[i]];
        if ids[i] in lease { lease := lease[ids[i] := Sec(expireAt)]; }
      }
      assert ids[..|ids|] == ids;
    }

    method WriteResult(id: string, data: seq<bv8>, now: int)
      requires Valid()
      modifies this`tasks
      ensures Valid() && View() == old(Exec(View(), CWriteResult(id, data, now)).q)
    {
      hide Inv, Exec;
      StepKeepsInv(View(), name, CWriteResult(id, data, now));
      ResultEffect(View(), id, data, now);
      tasks := tasks[id := HashOf(tasks, id).(result := Some(data))];
    }
  }

  lemma NowActive(t: map<string, Hash>, id: string)
    requires id in t
    ensures var u := SetState(t, id, Active);
            id in u && u[id := u[id].(pendingSince := None)] == t[id := t[id].(state := Some(Active), pendingSince := None)]
  {
  }

  lemma StoredNext(tasks: map<string, Hash>, ids: seq<string>, i: nat)
    requires i < |ids|
    ensures var h := HashOf(tasks, ids[i]);
            Stored(tasks, ids[i..]) == if h.msg.Some? then [h.msg.value] + Stored(tasks, ids[i + 1..]) else Stored(tasks, ids[i + 1..])
  {
    assert ids[i..][1..] == ids[i + 1..];
  }

  lemma StoredNone(tasks: map<string, Hash>)
    ensures Stored(tasks, []) == []
  {
  }

  lemma StaleIds(z: ZSet, cutoff: int)
    ensures Elems(RangeByScore(z, cutoff, -1)) == Stale(z, cutoff)
  {
    hide RangeByScore;
    FullRange(z, cutoff);
  }

  lemma DropTwice<T>(z: ZSet, t: map<string, T>, a: set<string>, b: set<string>)
    ensures z - a - b == z - (a + b) && t - a - b == t - (a + b)
  {
  }

  // ---------------------------------------------------------------- many queues

  /** The broker with all of its queues; they share no keys. */
  class RDB {
    const queues: map<string, RedisQueue>

    ghost predicate Valid()
      reads this, queues.Values
    {
      forall n | n in queues :: queues[n].name == n && queues[n].Valid()
    }

    constructor (queues: map<string, RedisQueue>)
      requires forall n | n in queues :: queues[n].name == n && queues[n].Valid()
      ensures this.queues == queues && Valid()
    {
      this.queues := queues;
    }

    ghost function Views(): map<string, QueueState>
      reads this, queues.Values
    {
      map n | n in queues :: queues[n].View()
    }

    lemma Domain()
      ensures Views().Keys == queues.Keys
    {
    }

    lemma Member(n: string)
      requires Valid() && n in queues
      ensures queues[n].Valid() && queues[n].name == n && Views()[n] == queues[n].View()
    {
    }

    /** A call on one queue leaves the others alone. */
    twostate lemma OneChanged(n: string)
      requires old(Valid()) && n in queues && queues[n].Valid()
      requires unchanged(queues.Values - {queues[n]})
      ensures Valid() && Views() == old(Views())[n := queues[n].View()]
    {
      forall k | k in queues && k != n ensures queues[k].Valid() && queues[k].name == k && queues[k].View() == old(queues[k].View()) {
        assert queues[k].name == k && queues[n].name == n;
      }
    }

    method DequeueFrom(n: string, now: int) returns (r: Reply)
      requires Valid() && n in queues
      modifies queues[n]
      ensures Valid() && Out(Views()[n], r) == Exec(old(Views())[n], CDequeue(now))
      ensures Views() == old(Views())[n := Views()[n]]
      ensures r == Nothing <==> Stuck(old(Views())[n])
      ensures r == Nothing ==> Views() == old(Views())
      ensures r != Nothing ==> r.Message? && r.msg.queue == n
    {
      hide Inv, Exec, RDB.Valid, RedisQueue.Valid, Views;
      Domain();
      Member(n);
      Answer(n, now);
      r := queues[n].Dequeue(now);
      OneChanged(n);
      Replaced(old(Views()), n);
    }

    lemma Answer(n: string, now: int)
      requires Valid() && n in queues
      ensures var q := queues[n].View(); var out := Exec(q, CDequeue(now));
              && (out.reply == Nothing <==> Stuck(q)) && (out.reply == Nothing ==> out.q == q)
              && (out.reply != Nothing ==> out.reply.Message? && out.reply.msg.queue == n)
    {
      hide Inv;
      DequeueDelivers(queues[n].View(), n, Sec(now + LEASE_DURATION));
    }

    /**
     Asks the queues in order, and takes a task from the first that is neither empty nor paused;
     there is no task only if every one of them was.
     */
    method Dequeue(qnames: seq<string>, now: int) returns (r: Reply, ghost k: nat)
      requires Valid() && forall i | 0 <= i < |qnames| :: qnames[i] in queues
      modifies queues.Values
      ensures Valid()
      ensures k <= |qnames| && (k == |qnames| <==> r == Nothing)
      ensures forall i | 0 <= i < k :: Stuck(old(Views())[qnames[i]])
      ensures k < |qnames| ==> r.Message? && r.msg.queue == qnames[k] && !Stuck(old(Views())[qnames[k]])
      ensures k < |qnames| ==> Out(Views()[qnames[k]], r) == Exec(old(Views())[qnames[k]], CDequeue(now))
      ensures Views() == if k < |qnames| then old(Views())[qnames[k] := Views()[qnames[k]]] else old(Views())
    {
      hide Inv, Exec, RDB.Valid, Stuck;
      ghost var v := Views();
      k := 0;
      for i := 0 to |qnames|
        invariant Valid() && k == i && Views() == v
        invariant forall j | 0 <= j < i :: Stuck(v[qnames[j]])
      {
        r := DequeueFrom(qnames[i], now);
        if r != Nothing { return; }
        k := k + 1;
      }
      r := Nothing;
    }

    /** The messages with an old lease, queue by queue. */
    method ListLeaseExpired(cutoff: int, qnames: seq<string>) returns (msgs: seq<TaskMessage>)
      requires Valid() && NoDup(qnames) && forall i | 0 <= i < |qnames| :: qnames[i] in queues
      ensures Lists(msgs, Views(), qnames, cutoff)
    {
      hide Inv, LeaseExpired, Lists;
      ghost var v := Views();
      msgs := [];
      ListsNone(v, cutoff);
      assert qnames[..0] == [];
      for i := 0 to |qnames|
        invariant Lists(msgs, v, qnames[..i], cutoff)
      {
        var q := queues[qnames[i]];
        var res := q.ListLeaseExpired(cutoff);
        ListedMessages(q.View(), q.name, cutoff);
        ListsMore(msgs, res, v, qnames[..i], qnames[i], cutoff);
        assert qnames[..i + 1] == qnames[..i] + [qnames[i]];
        msgs := msgs + res;
      }
      assert qnames[..|qnames|] == qnames;
    }
  }

  /** The messages are those with an old lease in the named queues, for each queue in its order. */
  ghost predicate Lists(msgs: seq<TaskMessage>, v: map<string, QueueState>, qnames: seq<string>, cutoff: int) {
    && (forall m | m in msgs :: m.queue in qnames)
    && (forall n | n in v && n in qnames :: Of(msgs, n) == LeaseExpired(v[n], cutoff))
    && (forall n | n !in qnames :: Of(msgs, n) == [])
  }

  lemma ListsNone(v: map<string, QueueState>, cutoff: int)
    ensures Lists([], v, [], cutoff)
  {
    hide LeaseExpired;
  }

  lemma ListsMore(msgs: seq<TaskMessage>, res: seq<TaskMessage>, v: map<string, QueueState>, qnames: seq<string>, k: string, cutoff: int)
    requires Lists(msgs, v, qnames, cutoff) && k in v && k !in qnames && res == LeaseExpired(v[k], cutoff)
    requires forall i | 0 <= i < |res| :: res[i].queue == k
    ensures Lists(msgs + res, v, qnames + [k], cutoff)
  {
    hide LeaseExpired, Of;
    forall n ensures Of(msgs + res, n) == Of(msgs, n) + if n == k then res else [] {
      OfConcat(msgs, res, n);
      if n == k { OfAll(res, n); } else { OfNone(res, n); }
    }
    assert Of(msgs, k) == [];
  }

  /** The messages of one queue, in order. */
  function Of(msgs: seq<TaskMessage>, n: string): seq<TaskMessage> {
    if msgs == [] then [] else (if msgs[0].queue == n then [msgs[0]] else []) + Of(msgs[1..], n)
  }

  lemma {:induction false} OfConcat(a: seq<TaskMessage>, b: seq<TaskMessage>, n: string)
    ensures Of(a + b, n) == Of(a, n) + Of(b, n)
  {
    if a == [] {
      assert a + b == b && [] + Of(b, n) == Of(b, n);
    } else {
      assert (a + b)[0] == a[0] && (a + b)[1..] == a[1..] + b;
      OfConcat(a[1..], b, n);
      var first := if a[0].queue == n then [a[0]] else [];
      assert first + (Of(a[1..], n) + Of(b, n)) == first + Of(a[1..], n) + Of(b, n);
    }
  }

  lemma {:induction false} OfAll(msgs: seq<TaskMessage>, n: string)
    requires forall i | 0 <= i < |msgs| :: msgs[i].queue == n
    ensures Of(msgs, n) == msgs
  {
    if msgs != [] { OfAll(msgs[1..], n); }
  }

  lemma {:induction false} OfNone(msgs: seq<TaskMessage>, n: string)
    requires forall i | 0 <= i < |msgs| :: msgs[i].queue != n
    ensures Of(msgs, n) == []
  {
    if msgs != [] { OfNone(msgs[1..], n); }
  }

  /** Nothing can be taken from the queue. */
  predicate Stuck(q: QueueState) {
    q.paused || q.pending == []
  }

  lemma Replaced(v: map<string, QueueState>, n: string)
    requires n in v
    ensures v[n := v[n]] == v
  {
  }
}
