/**
 The keys of one queue and the effect of every Lua script on them (internal/rdb/rdb.go).
 A script is one atomic step.  Its effect is given for every state, well formed or not: a
 script that stops half way keeps what it has already done, as Redis does.
 */
module Queues {
  import opened Base
  import opened SortedSets

  /** A task hash.  A field that is not set is None. */
  datatype Hash = Hash(
    msg: Option<TaskMessage>,
    state: Option<TaskState>,
    pendingSince: Option<int>,
    uniqueKey: Option<string>,
    result: Option<seq<bv8>>)

  const EMPTY_HASH := Hash(None, None, None, None, None)

  /** A uniqueness lock: the id that took it, and the time after which Redis treats it as gone. */
  datatype Lock = Lock(holder: string, expireAt: int)

  /** Index 0 of a list is its left end.  Tasks leave `pending` at the right end. */
  datatype QueueState = QueueState(
    pending: seq<string>,
    active: seq<string>,
    scheduled: ZSet,
    retry: ZSet,
    archived: ZSet,
    completed: ZSet,
    lease: ZSet,
    tasks: map<string, Hash>,
    locks: map<string, Lock>,
    paused: bool)

  const EMPTY_QUEUE := QueueState([], [], map[], map[], map[], map[], map[], map[], map[], false)

  datatype Source = FromScheduled | FromRetry

  datatype Reply =
    | Ok
    | Conflict            // the script returned 0: the task id exists
    | Duplicate           // the script returned -1: the unique key is locked
    | BadExpiry           // SET ... EX refuses a lifetime below one second
    | NotFound
    | Internal
    | Nothing             // nil
    | Message(msg: TaskMessage)
    | Messages(msgs: seq<TaskMessage>)
    | Count(n: nat)

  datatype Out = Out(q: QueueState, reply: Reply)

  const MAX_ARCHIVE_SIZE := 10000
  const FORWARD_BATCH := 100

  // ---------------------------------------------------------------- hashes and locks

  function HashOf(tasks: map<string, Hash>, id: string): Hash {
    if id in tasks then tasks[id] else EMPTY_HASH
  }

  function SetState(tasks: map<string, Hash>, id: string, st: TaskState): map<string, Hash> {
    tasks[id := HashOf(tasks, id).(state := Some(st))]
  }

  function SetMsgState(tasks: map<string, Hash>, id: string, m: TaskMessage, st: TaskState): map<string, Hash> {
    tasks[id := HashOf(tasks, id).(msg := Some(m), state := Some(st))]
  }

  /** The lock on a key exists at time now. */
  predicate Locked(q: QueueState, key: string, now: int) {
    key in q.locks && now <= q.locks[key].expireAt
  }

  // ---------------------------------------------------------------- client scripts

  function Enqueue(q: QueueState, m: TaskMessage, now: int): Out {
    if m.id in q.tasks then Out(q, Conflict)
    else
      Out(q.(pending := [m.id] + q.pending,
             tasks := q.tasks[m.id := Hash(Some(m), Some(Pending), Some(now), None, None)]), Ok)
  }

  function EnqueueUnique(q: QueueState, m: TaskMessage, ttl: int, now: int): Out {
    if ttl <= 0 then Out(q, BadExpiry)
    else if Locked(q, m.uniqueKey, now) then Out(q, Duplicate)
    else
      var q1 := q.(locks := q.locks[m.uniqueKey := Lock(m.id, now + ttl * SECOND)]);
      if m.id in q.tasks then Out(q1, Conflict)
      else
        Out(q1.(pending := [m.id] + q.pending,
                tasks := q.tasks[m.id := Hash(Some(m), Some(Pending), Some(now), Some(m.uniqueKey), None)]), Ok)
  }

  function Schedule(q: QueueState, m: TaskMessage, at: int): Out {
    if m.id in q.tasks then Out(q, Conflict)
    else
      Out(q.(scheduled := q.scheduled[m.id := at],
             tasks := q.tasks[m.id := Hash(Some(m), Some(Scheduled), None, None, None)]), Ok)
  }

  function ScheduleUnique(q: QueueState, m: TaskMessage, ttl: int, at: int, now: int): Out {
    if ttl <= 0 then Out(q, BadExpiry)
    else if Locked(q, m.uniqueKey, now) then Out(q, Duplicate)
    else
      var q1 := q.(locks := q.locks[m.uniqueKey := Lock(m.id, now + ttl * SECOND)]);
      if m.id in q.tasks then Out(q1, Conflict)
      else
        Out(q1.(scheduled := q.scheduled[m.id := at],
                tasks := q.tasks[m.id := Hash(Some(m), Some(Scheduled), None, Some(m.uniqueKey), None)]), Ok)
  }

  // ---------------------------------------------------------------- worker scripts

  /** `leaseUntil` is the Unix time that becomes the lease score. */
  function Dequeue(q: QueueState, leaseUntil: int): Out {
    if q.paused || q.pending == [] then Out(q, Nothing)
    else
      var n := |q.pending| - 1;
      var id := q.pending[n];
      var h := HashOf(q.tasks, id).(state := Some(Active), pendingSince := None);
      Out(q.(pending := q.pending[..n],
             active := [id] + q.active,
             tasks := q.tasks[id := h],
             lease := q.lease[id := leaseUntil]),
          if h.msg.Some? then Message(h.msg.value) else Nothing)
  }

  /** The common start of the five scripts that end an attempt. */
  function Release(q: QueueState, id: string): Out {
    if id !in q.active then Out(q, NotFound)
    else
      var q1 := q.(active := LRem(q.active, id));
      if id !in q.lease then Out(q1, NotFound)
      else Out(q1.(lease := q1.lease - {id}), Ok)
  }

  function Unlock(q: QueueState, key: string, id: string, now: int): QueueState {
    if Locked(q, key, now) && q.locks[key].holder == id then q.(locks := q.locks - {key}) else q
  }

  function Done(q: QueueState, m: TaskMessage, now: int): Out {
    var r := Release(q, m.id);
    if r.reply != Ok then r
    else if m.id !in r.q.tasks then Out(r.q, NotFound)
    else
      var q1 := r.q.(tasks := r.q.tasks - {m.id});
      Out(if m.uniqueKey != "" then Unlock(q1, m.uniqueKey, m.id, now) else q1, Ok)
  }

  function Completing(m: TaskMessage, now: int): TaskMessage {
    m.(completedAt := Sec(now))
  }

  function MarkAsComplete(q: QueueState, m: TaskMessage, now: int): Out {
    var r := Release(q, m.id);
    if r.reply != Ok then r
    else
      var q1 := r.q.(completed := r.q.completed[m.id := Sec(now) + m.retention]);
      if m.id in q.completed then Out(q1, Internal)
      else Out(q1.(tasks := SetMsgState(q1.tasks, m.id, Completing(m, now), Completed)), Ok)
  }

  function Requeue(q: QueueState, m: TaskMessage): Out {
    var r := Release(q, m.id);
    if r.reply != Ok then r
    else Out(r.q.(pending := r.q.pending + [m.id], tasks := SetState(r.q.tasks, m.id, Pending)), Ok)
  }

  function Failing(m: TaskMessage, err: string, isFailure: bool, now: int): TaskMessage {
    m.(retried := if isFailure then m.retried + 1 else m.retried, errorMsg := err, lastFailedAt := Sec(now))
  }

  function RetryTask(q: QueueState, m: TaskMessage, at: int, err: string, isFailure: bool, now: int): Out {
    var r := Release(q, m.id);
    if r.reply != Ok then r
    else Out(r.q.(retry := r.q.retry[m.id := at],
                  tasks := SetMsgState(r.q.tasks, m.id, Failing(m, err, isFailure, now), Retry)), Ok)
  }

  /** The members that `ZRANGE key 0 -max` selects: all but the top max - 1. */
  function Excess(z: ZSet): (r: seq<string>)
    ensures forall x | x in r :: x in z
  {
    if |z| < MAX_ARCHIVE_SIZE then [] else Ranked(z)[..|z| - MAX_ARCHIVE_SIZE + 1]
  }

  /** What one Archive step removes from the archive once the new entry is in. */
  function Stale(z: ZSet, cutoff: int): (r: set<string>)
    ensures r <= z.Keys
  {
    Due(z, cutoff).Keys
  }

  function Trimmed(z: ZSet, cutoff: int): (r: set<string>)
    ensures r <= z.Keys
  {
    Stale(z, cutoff) + Elems(Excess(z - Stale(z, cutoff)))
  }

  function Archive(q: QueueState, m: TaskMessage, err: string, now: int, cutoff: int): Out {
    var r := Release(q, m.id);
    if r.reply != Ok then r
    else
      var z := r.q.archived[m.id := Sec(now)];
      var gone := Trimmed(z, cutoff);
      Out(r.q.(archived := z - gone,
               tasks := SetMsgState(r.q.tasks - gone, m.id, Failing(m, err, false, now), Archived)), Ok)
  }

  // ---------------------------------------------------------------- background scripts

  function SourceSet(q: QueueState, src: Source): ZSet {
    match src
    case FromScheduled => q.scheduled
    case FromRetry => q.retry
  }

  function WithSource(q: QueueState, src: Source, z: ZSet): QueueState {
    match src
    case FromScheduled => q.(scheduled := z)
    case FromRetry => q.(retry := z)
  }

  function MarkPending(tasks: map<string, Hash>, ids: set<string>, now: int): (r: map<string, Hash>)
    ensures r.Keys == tasks.Keys + ids
  {
    map id | id in tasks.Keys + ids ::
      if id in ids then HashOf(tasks, id).(state := Some(Pending), pendingSince := Some(now)) else tasks[id]
  }

  /** Moves the given members, in order, from a delayed set to pending. */
  function MoveToPending(q: QueueState, src: Source, ids: seq<string>, now: int): QueueState {
    WithSource(q, src, SourceSet(q, src) - Elems(ids)).(
      pending := Reverse(ids) + q.pending,
      tasks := MarkPending(q.tasks, Elems(ids), now))
  }

  function ReadyIds(q: QueueState, src: Source, now: int, limit: int): seq<string> {
    RangeByScore(SourceSet(q, src), Sec(now), limit)
  }

  /** forwardCmd, with the batch size as a parameter. */
  function Forward(q: QueueState, src: Source, now: int, limit: int): Out {
    var ids := ReadyIds(q, src, now, limit);
    Out(MoveToPending(q, src, ids, now), Count(|ids|))
  }

  function ExpiredIds(q: QueueState, now: int, limit: int): seq<string> {
    RangeByScore(q.completed, Sec(now), limit)
  }

  function Purge(q: QueueState, ids: set<string>): QueueState {
    q.(completed := q.completed - ids, tasks := q.tasks - ids)
  }

  function DeleteExpired(q: QueueState, now: int, limit: int): Out {
    var ids := ExpiredIds(q, now, limit);
    Out(Purge(q, Elems(ids)), Count(|ids|))
  }

  /** The stored messages of the given ids, skipping hashes without one. */
  function Stored(tasks: map<string, Hash>, ids: seq<string>): seq<TaskMessage> {
    if ids == [] then []
    else
      var h := HashOf(tasks, ids[0]);
      (if h.msg.Some? then [h.msg.value] else []) + Stored(tasks, ids[1..])
  }

  function LeaseExpired(q: QueueState, cutoff: int): seq<TaskMessage> {
    Stored(q.tasks, RangeByScore(q.lease, cutoff, -1))
  }

  /** `ZADD key XX`: only members that are already there get the new score. */
  function Rescore(z: ZSet, ids: set<string>, score: int): (r: ZSet)
    ensures r.Keys == z.Keys
  {
    map x | x in z :: if x in ids then score else z[x]
  }

  function ExtendLease(q: QueueState, ids: set<string>, leaseUntil: int): QueueState {
    q.(lease := Rescore(q.lease, ids, leaseUntil))
  }

  function WriteResult(q: QueueState, id: string, data: seq<bv8>): QueueState {
    q.(tasks := q.tasks[id := HashOf(q.tasks, id).(result := Some(data))])
  }

  // ---------------------------------------------------------------- commands

  /** One broker call on a queue: the script with the arguments that its wrapper passes. */
  datatype Cmd =
    | CEnqueue(m: TaskMessage, now: int)
    | CEnqueueUnique(m: TaskMessage, ttl: int, now: int)
    | CSchedule(m: TaskMessage, at: int, now: int)
    | CScheduleUnique(m: TaskMessage, ttl: int, at: int, now: int)
    | CDequeue(now: int)
    | CDone(m: TaskMessage, now: int)
    | CMarkAsComplete(m: TaskMessage, now: int)
    | CRequeue(m: TaskMessage, now: int)
    | CRetry(m: TaskMessage, at: int, err: string, isFailure: bool, now: int)
    | CArchive(m: TaskMessage, err: string, now: int, cutoff: int)
    | CForward(src: Source, now: int)
    | CDeleteExpired(now: int, batch: int)
    | CListExpired(now: int)
    | CExtendLease(ids: set<string>, now: int)
    | CWriteResult(id: string, data: seq<bv8>, now: int)
    | CPause(on: bool, now: int)

  /** The calls with which a client submits a task. */
  predicate Submits(c: Cmd) {
    c.CEnqueue? || c.CEnqueueUnique? || c.CSchedule? || c.CScheduleUnique?
  }

  /** The client calls that ask for a uniqueness lock, for `ttl` seconds. */
  predicate IsUnique(c: Cmd) {
    c.CEnqueueUnique? || c.CScheduleUnique?
  }

  /** The calls that end an attempt. */
  predicate EndsAttempt(c: Cmd) {
    c.CDone? || c.CMarkAsComplete? || c.CRequeue? || c.CRetry? || c.CArchive?
  }

  function Exec(q: QueueState, c: Cmd): Out {
    match c
    case CEnqueue(m, now) => Enqueue(q, m, now)
    case CEnqueueUnique(m, ttl, now) => EnqueueUnique(q, m, ttl, now)
    case CSchedule(m, at, now) => Schedule(q, m, at)
    case CScheduleUnique(m, ttl, at, now) => ScheduleUnique(q, m, ttl, at, now)
    case CDequeue(now) => Dequeue(q, Sec(now + LEASE_DURATION))
    case CDone(m, now) => Done(q, m, now)
    case CMarkAsComplete(m, now) => MarkAsComplete(q, m, now)
    case CRequeue(m, now) => Requeue(q, m)
    case CRetry(m, at, err, isFailure, now) => RetryTask(q, m, at, err, isFailure, now)
    case CArchive(m, err, now, cutoff) => Archive(q, m, err, now, cutoff)
    case CForward(src, now) => Forward(q, src, now, FORWARD_BATCH)
    case CDeleteExpired(now, batch) => DeleteExpired(q, now, batch)
    case CListExpired(now) => Out(q, Messages(LeaseExpired(q, Sec(now - 30 * SECOND))))
    case CExtendLease(ids, now) => Out(ExtendLease(q, ids, Sec(now + LEASE_DURATION)), Ok)
    case CWriteResult(id, data, now) => Out(WriteResult(q, id, data), Ok)
    case CPause(on, now) => Out(q.(paused := on), Ok)
  }

  /** The broker picks the keys from the message, so a command on a queue carries that queue's name. */
  predicate Addressed(name: string, c: Cmd) {
    match c
    case CEnqueue(m, _) => m.queue == name
    case CEnqueueUnique(m, _, _) => m.queue == name
    case CSchedule(m, _, _) => m.queue == name
    case CScheduleUnique(m, _, _, _) => m.queue == name
    case CDone(m, _) => m.queue == name
    case CMarkAsComplete(m, _) => m.queue == name
    case CRequeue(m, _) => m.queue == name
    case CRetry(m, _, _, _, _) => m.queue == name
    case CArchive(m, _, _, _) => m.queue == name
    case _ => true
  }

  // ---------------------------------------------------------------- the global invariant

  /** The hash of id has a message for that id and queue, and the given state. */
  predicate Holds(q: QueueState, name: string, id: string, st: TaskState) {
    && id in q.tasks
    && q.tasks[id].state == Some(st)
    && q.tasks[id].msg.Some?
    && q.tasks[id].msg.value.id == id
    && q.tasks[id].msg.value.queue == name
  }

  ghost predicate AllHold(q: QueueState, name: string, ids: set<string>, st: TaskState) {
    forall id | id in ids :: Holds(q, name, id, st)
  }

  /** A place implies a hash with the matching state; leases are exactly on the active tasks. */
  ghost predicate Inv(q: QueueState, name: string) {
    && NoDup(q.pending) && NoDup(q.active)
    && AllHold(q, name, Elems(q.pending), Pending)
    && AllHold(q, name, Elems(q.active), Active)
    && AllHold(q, name, q.scheduled.Keys, Scheduled)
    && AllHold(q, name, q.retry.Keys, Retry)
    && AllHold(q, name, q.archived.Keys, Archived)
    && AllHold(q, name, q.completed.Keys, Completed)
    && q.lease.Keys == Elems(q.active)
  }

  predicate Placed(q: QueueState, id: string) {
    || id in q.pending || id in q.active || id in q.scheduled
    || id in q.retry || id in q.archived || id in q.completed
  }
}
