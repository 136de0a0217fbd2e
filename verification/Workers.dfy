/**
 The server side of an attempt: the worker's last write, fenced by its lease (processor.go), and
 the heartbeat that extends the leases of all workers (heartbeat.go).
 */
module Workers {
  import opened Base
  import opened SortedSets
  import opened Queues
  import opened Invariant
  import opened Effects
  import opened Protocol
  import opened Leases
  import opened Broker
  import opened QueueChoice

  /** What a worker's last action does to the queue: its broker call if the lease is valid, else nothing. */
  function FencedEffect(q: QueueState, l: LeaseState, m: TaskMessage, o: Outcome, now: int): QueueState {
    if ValidAt(l, now) then Exec(q, TerminalCmd(m, o, now)).q else q
  }

  /**
   The worker's code is a run that the protocol allows: the check of the lease and, if it is valid, the
   last write.  Here both see the same clock; the protocol lets any time pass between them.
   */
  lemma FinishIsProtocolRun(cfg: Config, s: Sys, w: nat, o: Outcome, l: LeaseState)
    requires w in s.workers && s.workers[w].running && s.workers[w].write.None? && s.workers[w].node in s.clock
    requires l.expireAt == s.workers[w].deadline && 0 <= cfg.delivery
    ensures var now := s.clock[s.workers[w].node];
            var run := [ACheck(w, o, l.expireAt)] + (if ValidAt(l, now) then [AWrite(w, now)] else []);
            && Allowed(cfg, s, run)
            && Run(s, run).q == FencedEffect(s.q, l, s.workers[w].m, o, now)
            && w in Run(s, run).workers && !Run(s, run).workers[w].running
  {
    hide Exec, TerminalCmd, Step, Run, Allowed, Within;
    var now := s.clock[s.workers[w].node];
    var a, b := ACheck(w, o, l.expireAt), AWrite(w, now);
    CheckedState(s, w, o, l.expireAt);
    NoMore(cfg, Step(s, a));
    if ValidAt(l, now) {
      RunFirst(cfg, s, a, [b]);
      RunFirst(cfg, Step(s, a), b, []);
      WrittenState(Step(s, a), w, now);
      NoMore(cfg, Step(Step(s, a), b));
      assert [b] + [] == [b];
    } else {
      RunFirst(cfg, s, a, []);
    }
  }

  lemma NoMore(cfg: Config, s: Sys)
    ensures Allowed(cfg, s, []) && Run(s, []) == s
  {
  }

  // ---------------------------------------------------------------- how an attempt ends

  /** All tasks but m, those that Archive has trimmed apart, are as before. */
  ghost predicate OthersSame(q: QueueState, q': QueueState, m: TaskMessage, gone: set<string>) {
    forall id | id != m.id && id !in gone :: Untouched(q, q', id)
  }

  /** A success completes a task that is to be retained, for that long, and removes any other. */
  ghost predicate Succeeds(q: QueueState, q': QueueState, m: TaskMessage, now: int) {
    && OthersSame(q, q', m, {})
    && m.id !in q'.active && m.id !in q'.lease
    && (m.retention > 0 ==>
          At(q', m.id, Completed) && q'.completed[m.id] == Sec(now) + m.retention
          && m.id in q'.tasks && q'.tasks[m.id].msg == Some(m.(completedAt := Sec(now))))
    && (m.retention <= 0 ==> !Placed(q', m.id) && m.id !in q'.tasks)
  }

  /**
   A failure is recorded, and the task retried after the delay if it has a retry left and the handler
   has not ruled that out; otherwise it is archived at this second, unless the archive trims it at once.
   */
  ghost predicate Fails(q: QueueState, q': QueueState, m: TaskMessage, err: string, skipRetry: bool, isFailure: bool,
                        delay: int, cutoff: int, now: int)
  {
    var again := m.retried < m.retry && !skipRetry;
    var gone := if again then {} else Trimmed(q.archived[m.id := Sec(now)], cutoff);
    && OthersSame(q, q', m, gone)
    && m.id !in q'.active && m.id !in q'.lease
    && m.id in q'.tasks && q'.tasks[m.id].msg.Some? && Records(q'.tasks[m.id].msg.value, m, err, again && isFailure, now)
    && (again ==> At(q', m.id, Retry) && q'.retry[m.id] == Sec(now + delay))
    && (!again ==> if m.id in gone then !Placed(q', m.id) else At(q', m.id, Archived) && q'.archived[m.id] == Sec(now))
  }

  /** An aborted attempt puts the task back, with its message as it was, to be dequeued next. */
  ghost predicate Aborts(q: QueueState, q': QueueState, m: TaskMessage) {
    && OthersSame(q, q', m, {})
    && m.id !in q'.active && m.id !in q'.lease && q'.pending == q.pending + [m.id]
    && m.id in q.tasks && m.id in q'.tasks && q'.tasks[m.id].msg == q.tasks[m.id].msg
  }

  ghost predicate EndsAs(q: QueueState, q': QueueState, m: TaskMessage, o: Outcome, now: int) {
    match o
    case Succeeded => Succeeds(q, q', m, now)
    case Aborted => Aborts(q, q', m)
    case Failed(err, skipRetry, isFailure, delay, cutoff) => Fails(q, q', m, err, skipRetry, isFailure, delay, cutoff, now)
  }

  lemma TerminalEnds(q: QueueState, name: string, m: TaskMessage, o: Outcome, now: int)
    requires Inv(q, name) && m.queue == name && m.id in q.active
    ensures EndsAs(q, Exec(q, TerminalCmd(m, o, now)).q, m, o, now)
  {
    hide Inv, Exec, Trimmed, Untouched, Placed, Records;
    var c := TerminalCmd(m, o, now);
    var q' := Exec(q, c).q;
    if c.CArchive? {
      ExecArchive(q, c);
      ArchiveTarget(q, name, m, c.err, now, c.cutoff);
    } else {
      WorkerTarget(q, name, c);
    }
    forall id | id != m.id && (c.CArchive? ==> id !in Trimmed(q.archived[m.id := Sec(now)], c.cutoff))
      ensures Untouched(q, q', id)
    {
      StepFrame(q, c, id);
    }
  }

  /**
   What a worker's last action does, said without the broker's calls: nothing if the lease has ended
   or the task is not active any more, and otherwise what its outcome asks for.
   */
  lemma LastWriteEffect(q: QueueState, name: string, l: LeaseState, m: TaskMessage, o: Outcome, now: int)
    requires Inv(q, name) && m.queue == name
    ensures var q' := FencedEffect(q, l, m, o, now);
            if now <= l.expireAt && m.id in q.active then EndsAs(q, q', m, o, now) else q' == q
  {
    hide Inv, Exec, EndsAs, TerminalCmd;
    if now <= l.expireAt && m.id in q.active {
      TerminalEnds(q, name, m, o, now);
    } else if ValidAt(l, now) {
      TerminalAddressed(name, m, o, now);
      AllOrNothing(q, name, TerminalCmd(m, o, now));
    }
  }

  class Processor {

    method Requeue(broker: RedisQueue, l: Lease, m: TaskMessage, now: int)
      requires broker.Valid() && m.queue == broker.name
      modifies broker
      ensures broker.Valid() && broker.View() == FencedEffect(old(broker.View()), l.View(), m, Aborted, now)
      ensures if now <= l.expireAt && m.id in old(broker.active) then Aborts(old(broker.View()), broker.View(), m)
              else broker.View() == old(broker.View())
    {
      hide Exec, Inv, Aborts;
      LastWriteEffect(broker.View(), broker.name, l.View(), m, Aborted, now);
      var valid := l.IsValid(now);
      if !valid { return; }
      var r := broker.Requeue(m, now);
    }

    method HandleSucceededMessage(broker: RedisQueue, l: Lease, m: TaskMessage, now: int)
      requires broker.Valid() && m.queue == broker.name
      modifies broker
      ensures broker.Valid() && broker.View() == FencedEffect(old(broker.View()), l.View(), m, Succeeded, now)
      ensures if now <= l.expireAt && m.id in old(broker.active) then Succeeds(old(broker.View()), broker.View(), m, now)
              else broker.View() == old(broker.View())
    {
      hide Exec, Inv, Succeeds;
      LastWriteEffect(broker.View(), broker.name, l.View(), m, Succeeded, now);
      if m.retention > 0 {
        MarkAsComplete(broker, l, m, now);
      } else {
        MarkAsDone(broker, l, m, now);
      }
    }

    method MarkAsComplete(broker: RedisQueue, l: Lease, m: TaskMessage, now: int)
      requires broker.Valid() && m.queue == broker.name
      modifies broker
      ensures broker.Valid()
      ensures broker.View() == if ValidAt(l.View(), now) then old(Exec(broker.View(), CMarkAsComplete(m, now)).q) else old(broker.View())
    {
      hide Exec;
      var valid := l.IsValid(now);
      if !valid { return; }
      var r := broker.MarkAsComplete(m, now);
    }

    method MarkAsDone(broker: RedisQueue, l: Lease, m: TaskMessage, now: int)
      requires broker.Valid() && m.queue == broker.name
      modifies broker
      ensures broker.Valid()
      ensures broker.View() == if ValidAt(l.View(), now) then old(Exec(broker.View(), CDone(m, now)).q) else old(broker.View())
    {
      hide Exec;
      var valid := l.IsValid(now);
      if !valid { return; }
      var r := broker.Done(m, now);
    }

    /** Archive when no retry is left or the handler asked for it, otherwise retry after the delay. */
    method HandleFailedMessage(broker: RedisQueue, l: Lease, m: TaskMessage, err: string, skipRetry: bool,
                               isFailure: bool, delay: int, cutoff: int, now: int)
      requires broker.Valid() && m.queue == broker.name
      modifies broker
      ensures broker.Valid()
      ensures broker.View() ==
        FencedEffect(old(broker.View()), l.View(), m, Failed(err, skipRetry, isFailure, delay, cutoff), now)
      ensures if now <= l.expireAt && m.id in old(broker.active)
              then Fails(old(broker.View()), broker.View(), m, err, skipRetry, isFailure, delay, cutoff, now)
              else broker.View() == old(broker.View())
    {
      hide Exec, Inv, Fails;
      LastWriteEffect(broker.View(), broker.name, l.View(), m, Failed(err, skipRetry, isFailure, delay, cutoff), now);
      var valid := l.IsValid(now);
      if m.retried >= m.retry || skipRetry {
        if !valid { return; }
        var r := broker.Archive(m, err, now, cutoff);
      } else {
        if !valid { return; }
        var retryAt := now + delay;
        var r := broker.Retry(m, Sec(retryAt), err, isFailure, now);
      }
    }

    /** The worker that sees its lease channel closed: the failure is handled, but nothing is written. */
    method HandleLeaseExpired(broker: RedisQueue, l: Lease, m: TaskMessage, delay: int, cutoff: int,
                              isFailure: bool, closedAt: int, now: int)
      requires broker.Valid() && m.queue == broker.name
      requires l.notified && WellKept(l.View(), closedAt) && closedAt <= now
      modifies broker
      ensures broker.Valid() && broker.View() == old(broker.View())
    {
      HandleFailedMessage(broker, l, m, "titanqueue: task lease expired", false, isFailure, delay, cutoff, now);
    }
  }

  // ---------------------------------------------------------------- success and the uniqueness lock

  /**
   After a successful attempt the task's uniqueness lock is given up exactly when the task is not
   retained: MarkAsComplete leaves the lock in place until it expires.
   */
  lemma LockAfterSuccess(q: QueueState, name: string, m: TaskMessage, now: int)
    requires Inv(q, name) && m.queue == name && m.id in q.active
    requires m.uniqueKey != "" && Locked(q, m.uniqueKey, now) && q.locks[m.uniqueKey].holder == m.id
    ensures Locked(Exec(q, TerminalCmd(m, Succeeded, now)).q, m.uniqueKey, now) <==> m.retention > 0
  {
    hide Inv, LRem;
    ReleaseKeeps(q, name, m.id);
  }

  // ---------------------------------------------------------------- looking for a task

  /**
   How exec looks for a task: it asks every configured queue.  It finds none only if all were empty
   or paused; in strict mode the task's queue has the highest configured weight of those that were not.
   */
  method Pull(rdb: RDB, picker: QueuePicker, now: int) returns (r: Reply)
    requires rdb.Valid() && picker.Valid() && picker.weights.Keys <= rdb.queues.Keys
    modifies rdb.queues.Values
    ensures rdb.Valid() && Choice(picker, old(rdb.Views()), r)
  {
    hide Inv, Exec, RDB.Valid, RDB.Views, Permutes, Descending, Stuck, Choice;
    ghost var v := rdb.Views();
    rdb.Domain();
    var qnames := picker.Queues();
    Configured(picker, qnames);
    ghost var k;
    r, k := rdb.Dequeue(qnames, now);
    Chosen(picker, v, qnames, k, r);
  }

  /** No task if and only if every configured queue is stuck, else one of a queue that is not; in strict mode, of the highest weight. */
  ghost predicate Choice(picker: QueuePicker, v: map<string, QueueState>, r: Reply)
    requires picker.weights.Keys <= v.Keys
  {
    && (r == Nothing || r.Message?)
    && (r == Nothing <==> forall n | n in picker.weights :: Stuck(v[n]))
    && (r.Message? ==> r.msg.queue in picker.weights && !Stuck(v[r.msg.queue]))
    && (r.Message? && picker.strict ==>
          forall n | n in picker.weights && !Stuck(v[n]) :: picker.weights[n] <= picker.weights[r.msg.queue])
  }

  lemma Configured(picker: QueuePicker, qnames: seq<string>)
    requires picker.Valid() && Permutes(qnames, picker.queueConfig)
    ensures forall i | 0 <= i < |qnames| :: qnames[i] in picker.weights
    ensures forall n | n in picker.weights :: n in qnames
  {
    hide Permutes;
    PermutesNames(qnames, picker.queueConfig);
  }

  lemma Chosen(picker: QueuePicker, v: map<string, QueueState>, qnames: seq<string>, k: nat, r: Reply)
    requires picker.Valid() && picker.weights.Keys <= v.Keys && Permutes(qnames, picker.queueConfig)
    requires picker.strict ==> Descending(qnames, picker.queueConfig)
    requires forall i | 0 <= i < |qnames| :: qnames[i] in v
    requires k <= |qnames| && (k == |qnames| <==> r == Nothing) && forall i | 0 <= i < k :: Stuck(v[qnames[i]])
    requires k < |qnames| ==> r.Message? && r.msg.queue == qnames[k] && !Stuck(v[qnames[k]])
    ensures Choice(picker, v, r)
  {
    hide Permutes, Descending, Stuck, QueuePicker.Valid;
    Configured(picker, qnames);
    if k < |qnames| && picker.strict {
      FirstIsHighest(picker, qnames, (set n | n in picker.weights && Stuck(v[n])), k);
    }
  }

  lemma FirstIsHighest(picker: QueuePicker, qnames: seq<string>, blocked: set<string>, k: nat)
    requires picker.Valid() && Permutes(qnames, picker.queueConfig) && Descending(qnames, picker.queueConfig)
    requires k < |qnames| && forall i | 0 <= i < k :: qnames[i] in blocked
    ensures qnames[k] in picker.weights
    ensures forall n | n in picker.weights && n !in blocked :: picker.weights[n] <= picker.weights[qnames[k]]
  {
    hide Permutes, Descending;
    PermutesNames(qnames, picker.queueConfig);
    forall n | n in picker.weights && n !in blocked ensures picker.weights[n] <= picker.weights[qnames[k]] {
      StrictTakesHighest(qnames, picker.queueConfig, blocked, k, n);
      SameOrder(picker, n, qnames[k]);
    }
  }

  // ---------------------------------------------------------------- heartbeat

  datatype WorkerInfo = WorkerInfo(m: TaskMessage, lease: Lease)

  /** What the heartbeater hears of worker goroutines.  The code does not know which attempt it is. */
  datatype WorkerEvent = Started(attempt: nat, w: WorkerInfo) | Ended(attempt: nat, m: TaskMessage)

  function About(e: WorkerEvent): string {
    match e
    case Started(_, w) => w.m.id
    case Ended(_, m) => m.id
  }

  function Note(ws: map<string, WorkerInfo>, e: WorkerEvent): map<string, WorkerInfo> {
    match e
    case Started(_, w) => ws[w.m.id := w]
    case Ended(_, m) => ws - {m.id}
  }

  /** The workers that the heartbeater beats for after the given events. */
  function Registry(events: seq<WorkerEvent>): map<string, WorkerInfo> {
    if events == [] then map[] else Note(Registry(events[..|events| - 1]), events[|events| - 1])
  }

  /** No event after position i is about the id of the one at i. */
  ghost predicate LastWord(events: seq<WorkerEvent>, i: nat)
    requires i < |events|
  {
    forall j | i < j < |events| :: About(events[j]) != About(events[i])
  }

  lemma {:induction false} RegistryOf(events: seq<WorkerEvent>, i: nat)
    requires i < |events| && LastWord(events, i)
    ensures var id := About(events[i]); var r := Registry(events);
            if events[i].Started? then id in r && r[id] == events[i].w else id !in r
  {
    var n := |events| - 1;
    if i < n {
      assert About(events[n]) != About(events[i]);
      var front := events[..n];
      assert LastWord(front, i) by { assert forall j | i < j < n :: front[j] == events[j]; }
      RegistryOf(front, i);
    }
  }

  lemma {:induction false} SomeLastWord(events: seq<WorkerEvent>, i: nat) returns (k: nat)
    requires i < |events|
    ensures i <= k < |events| && About(events[k]) == About(events[i]) && LastWord(events, k)
    decreases |events| - i
  {
    if LastWord(events, i) {
      k := i;
    } else {
      var j :| i < j < |events| && About(events[j]) == About(events[i]);
      k := SomeLastWord(events, j);
    }
  }

  /** The attempt has started and not ended. */
  ghost predicate Running(events: seq<WorkerEvent>, i: nat)
    requires i < |events|
  {
    events[i].Started? && forall j | i < j < |events| :: events[j].attempt != events[i].attempt
  }

  /**
   The heartbeater keeps workers by task id only.  A running attempt is beaten for, under its own
   lease, if and only if no event since its start was about its task; the end of an older attempt of
   the same task on the same server drops it.
   */
  lemma BeatenForExactly(events: seq<WorkerEvent>, i: nat)
    requires i < |events| && Running(events, i)
    requires forall j, k | 0 <= j < k < |events| && events[j].Started? && events[k].Started? :: events[j].w.lease != events[k].w.lease
    ensures var id := About(events[i]); var r := Registry(events);
            (id in r && r[id] == events[i].w) <==> LastWord(events, i)
  {
    var k := SomeLastWord(events, i);
    RegistryOf(events, k);
    if LastWord(events, i) { RegistryOf(events, i); }
  }

  lemma OldEndDropsNew(old0: WorkerInfo, new1: WorkerInfo)
    requires old0.m.id == new1.m.id
    ensures var events := [Started(0, old0), Started(1, new1), Ended(0, old0.m)];
            Running(events, 1) && new1.m.id !in Registry(events)
  {
    var events := [Started(0, old0), Started(1, new1), Ended(0, old0.m)];
    assert LastWord(events, 2);
    RegistryOf(events, 2);
  }

  type LeaseViews = map<string, LeaseState>

  /** The ids whose lease is valid. */
  function Current(m: LeaseViews, now: int): set<string> {
    set id | id in m && ValidAt(m[id], now)
  }

  function NotifySome(m: LeaseViews, ids: set<string>, now: int): LeaseViews {
    map id | id in m :: if id in ids then Apply(m[id], Notify(now)) else m[id]
  }

  function ResetSome(m: LeaseViews, ids: set<string>, now: int): LeaseViews {
    map id | id in m :: if id in ids then Apply(m[id], ResetTo(now + LEASE_DURATION, now)) else m[id]
  }

  /** One heartbeat, lease by lease: valid leases are extended, holders of the others are told. */
  function Beaten(m: LeaseViews, now: int): LeaseViews {
    map id | id in m :: Apply(m[id], if ValidAt(m[id], now) then ResetTo(now + LEASE_DURATION, now) else Notify(now))
  }

  lemma CurrentKnown(m: LeaseViews, now: int)
    ensures Current(m, now) <= m.Keys
  {
  }

  lemma CurrentMember(m: LeaseViews, id: string, now: int)
    ensures id in Current(m, now) <==> id in m && ValidAt(m[id], now)
  {
  }

  /** Leases after a beat: the valid ones end 30 s from now, and the holders of the others have been told. */
  ghost predicate Told(m: LeaseViews, m': LeaseViews, now: int) {
    && m'.Keys == m.Keys
    && forall id | id in m ::
         if now <= m[id].expireAt then m'[id] == m[id].(expireAt := now + 30 * SECOND)
         else m'[id].expireAt == m[id].expireAt && m'[id].notified
  }

  lemma BeatenIsTold(m: LeaseViews, now: int)
    ensures Told(m, Beaten(m, now), now)
  {
  }

  /** Queues after a beat: the scores of valid leases, in their own queues and if still there, are 30 s from now. */
  ghost predicate Rescored(v: map<string, QueueState>, v': map<string, QueueState>, m: LeaseViews, queueOf: map<string, string>, now: int) {
    && v'.Keys == v.Keys
    && forall n | n in v ::
         && v'[n] == v[n].(lease := v'[n].lease) && v'[n].lease.Keys == v[n].lease.Keys
         && forall id | id in v[n].lease ::
              v'[n].lease[id] == if id in m && id in queueOf && queueOf[id] == n && now <= m[id].expireAt
                                 then Sec(now + 30 * SECOND) else v[n].lease[id]
  }

  lemma ExtendedIsRescored(v: map<string, QueueState>, m: LeaseViews, queueOf: map<string, string>, now: int)
    ensures Rescored(v, Extended(v, Current(m, now), queueOf, now), m, queueOf, now)
  {
  }

  lemma BeatenInTwo(m: LeaseViews, now: int)
    ensures ResetSome(NotifySome(m, m.Keys, now), Current(m, now), now) == Beaten(m, now)
  {
  }

  lemma NotifyMore(m: LeaseViews, ids: set<string>, id: string, now: int)
    requires id in m && id !in ids
    ensures NotifySome(m, ids, now)[id] == m[id]
    ensures NotifySome(NotifySome(m, ids, now), {id}, now) == NotifySome(m, ids + {id}, now)
    ensures ValidAt(m[id], now) ==> NotifySome(m, ids + {id}, now) == NotifySome(m, ids, now)
  {
  }

  lemma NotifyOnly(m: LeaseViews, id: string, now: int)
    requires id in m
    ensures NotifySome(m, {id}, now) == m[id := Apply(m[id], Notify(now))]
    ensures ValidAt(m[id], now) ==> NotifySome(m, {id}, now) == m
  {
  }

  lemma ResetOnly(m: LeaseViews, id: string, now: int)
    requires id in m
    ensures ResetSome(m, {id}, now) == m[id := Apply(m[id], ResetTo(now + LEASE_DURATION, now))]
  {
  }

  lemma NotifyNone(m: LeaseViews, now: int)
    ensures NotifySome(m, {}, now) == m
  {
  }

  lemma ResetTwice(m: LeaseViews, a: set<string>, b: set<string>, now: int)
    ensures ResetSome(ResetSome(m, a, now), b, now) == ResetSome(m, a + b, now)
  {
  }

  /** Worker ids by queue; `queueOf` is the queue of each worker. */
  function IdsIn(ids: set<string>, queueOf: map<string, string>, n: string): set<string> {
    set id | id in ids && id in queueOf && queueOf[id] == n
  }

  /** The broker's side of a heartbeat: in each queue the scores of its own ids. */
  function Extended(v: map<string, QueueState>, ids: set<string>, queueOf: map<string, string>, now: int): map<string, QueueState> {
    map n | n in v :: ExtendLease(v[n], IdsIn(ids, queueOf, n), Sec(now + LEASE_DURATION))
  }

  lemma ExtendMore(v: map<string, QueueState>, ids: set<string>, more: set<string>, queueOf: map<string, string>, n: string, now: int)
    requires n in v && forall id | id in more :: id in queueOf && queueOf[id] == n
    ensures var e := Extended(v, ids, queueOf, now);
            e[n := ExtendLease(e[n], more, Sec(now + LEASE_DURATION))] == Extended(v, ids + more, queueOf, now)
  {
    hide Rescore;
    var e, e' := Extended(v, ids, queueOf, now), Extended(v, ids + more, queueOf, now);
    var score := Sec(now + LEASE_DURATION);
    forall k | k in v && k != n ensures e[k] == e'[k] {
      assert IdsIn(ids + more, queueOf, k) == IdsIn(ids, queueOf, k);
    }
    assert IdsIn(ids + more, queueOf, n) == IdsIn(ids, queueOf, n) + more;
    RescoreTwice(v[n].lease, IdsIn(ids, queueOf, n), more, score);
    assert ExtendLease(e[n], more, score) == e'[n];
  }

  lemma RescoreTwice(z: ZSet, a: set<string>, b: set<string>, score: int)
    ensures Rescore(Rescore(z, a, score), b, score) == Rescore(z, a + b, score)
  {
  }

  lemma ExtendNone(v: map<string, QueueState>, queueOf: map<string, string>, now: int)
    ensures Extended(v, {}, queueOf, now) == v
  {
    forall n | n in v ensures ExtendLease(v[n], IdsIn({}, queueOf, n), Sec(now + LEASE_DURATION)) == v[n] {
      assert Rescore(v[n].lease, {}, Sec(now + LEASE_DURATION)) == v[n].lease;
      assert IdsIn({}, queueOf, n) == {};
    }
  }

  /** The lists hold exactly the given ids, each under its queue. */
  ghost predicate SortedByQueue(idsByQueue: map<string, seq<string>>, ids: set<string>, queueOf: map<string, string>) {
    && (forall n, id | n in idsByQueue && id in idsByQueue[n] :: id in ids && id in queueOf && queueOf[id] == n)
    && (forall id | id in ids && id in queueOf :: queueOf[id] in idsByQueue && id in idsByQueue[queueOf[id]])
  }

  function AddTo(m: map<string, seq<string>>, n: string, id: string): map<string, seq<string>> {
    m[n := (if n in m then m[n] else []) + [id]]
  }

  lemma SortedIds(m: map<string, seq<string>>, ids: set<string>, queueOf: map<string, string>, n: string)
    requires SortedByQueue(m, ids, queueOf) && n in m
    ensures Elems(m[n]) <= ids && forall id | id in Elems(m[n]) :: id in queueOf && queueOf[id] == n
  {
  }

  lemma SortedAll(m: map<string, seq<string>>, ids: set<string>, queueOf: map<string, string>, done: set<string>)
    requires SortedByQueue(m, ids, queueOf) && done <= ids <= queueOf.Keys
    requires forall n | n in m :: Elems(m[n]) <= done
    ensures done == ids
  {
  }

  lemma SortedNone(queueOf: map<string, string>)
    ensures SortedByQueue(map[], {}, queueOf)
  {
  }

  lemma AddSorted(m: map<string, seq<string>>, ids: set<string>, queueOf: map<string, string>, id: string)
    requires SortedByQueue(m, ids, queueOf) && id in queueOf
    ensures SortedByQueue(AddTo(m, queueOf[id], id), ids + {id}, queueOf)
  {
  }

  lemma CheckMore(m: LeaseViews, seen: set<string>, id: string, now: int, idsByQueue: map<string, seq<string>>, queueOf: map<string, string>)
    requires id in m && id !in seen && m.Keys == queueOf.Keys && SortedByQueue(idsByQueue, Current(m, now) * seen, queueOf)
    ensures id in NotifySome(m, seen, now)
    ensures NotifySome(NotifySome(m, seen, now), {id}, now) == NotifySome(m, seen + {id}, now)
    ensures SortedByQueue(if ValidAt(NotifySome(m, seen, now)[id], now) then AddTo(idsByQueue, queueOf[id], id) else idsByQueue,
                          Current(m, now) * (seen + {id}), queueOf)
  {
    hide Apply, SortedByQueue, ValidAt, Current;
    NotifyMore(m, seen, id, now);
    CurrentMember(m, id, now);
    var current := Current(m, now);
    if id in current {
      assert current * (seen + {id}) == current * seen + {id};
      AddSorted(idsByQueue, current * seen, queueOf, id);
    } else {
      assert current * (seen + {id}) == current * seen;
    }
  }

  class Heartbeater {
    var workers: map<string, WorkerInfo>
    ghost var events: seq<WorkerEvent>

    /** Workers are listed under their task id as the events say, and each has a lease of its own. */
    ghost predicate Valid()
      reads this
    {
      && workers == Registry(events)
      && (forall id | id in workers :: workers[id].m.id == id)
      && (forall a, b | a in workers && b in workers && a != b :: workers[a].lease != workers[b].lease)
    }

    ghost function AllLeases(): set<Lease>
      reads this
    {
      set id | id in workers :: workers[id].lease
    }

    ghost function Leases(): LeaseViews
      reads this, AllLeases()
    {
      map id | id in workers :: workers[id].lease.View()
    }

    ghost function QueueOf(): map<string, string>
      reads this
    {
      map id | id in workers :: workers[id].m.queue
    }

    lemma LeasesKnown()
      ensures Leases().Keys == workers.Keys == QueueOf().Keys
    {
    }

    constructor ()
      ensures workers == map[] && events == [] && Valid()
    {
      workers, events := map[], [];
    }

    /** A worker starts with a new lease. */
    method Starting(w: WorkerInfo, ghost attempt: nat)
      requires Valid() && w.lease !in AllLeases()
      modifies this
      ensures Valid() && events == old(events) + [Started(attempt, w)]
    {
      workers := workers[w.m.id := w];
      events := events + [Started(attempt, w)];
      assert events[..|events| - 1] == old(events);
    }

    method Finished(m: TaskMessage, ghost attempt: nat)
      requires Valid()
      modifies this
      ensures Valid() && events == old(events) + [Ended(attempt, m)]
    {
      workers := workers - {m.id};
      events := events + [Ended(attempt, m)];
      assert events[..|events| - 1] == old(events);
    }

    lemma LeaseOf(id: string)
      requires id in workers
      ensures id in Leases() && Leases()[id] == workers[id].lease.View() && QueueOf()[id] == workers[id].m.queue
    {
    }

    /** A call on one lease leaves the others alone. */
    twostate lemma OneLease(id: string)
      requires old(Valid()) && id in workers && unchanged(this) && unchanged(AllLeases() - {workers[id].lease})
      ensures Leases() == old(Leases())[id := workers[id].lease.View()]
    {
    }

    /** One worker in the first half of beat: list it, or notify it. */
    method CheckOne(id: string, now: int, idsByQueue: map<string, seq<string>>) returns (r: map<string, seq<string>>)
      requires Valid() && id in workers
      modifies workers[id].lease
      ensures Leases() == NotifySome(old(Leases()), {id}, now)
      ensures r == if ValidAt(old(Leases())[id], now) then AddTo(idsByQueue, QueueOf()[id], id) else idsByQueue
    {
      hide Valid, Leases, QueueOf, NotifySome, AddTo;
      r := idsByQueue;
      ghost var m := Leases();
      LeaseOf(id);
      NotifyOnly(m, id, now);
      var valid := workers[id].lease.IsValid(now);
      if valid {
        r := AddTo(idsByQueue, workers[id].m.queue, id);
      } else {
        var sent := workers[id].lease.NotifyExpiration(now);
      }
      OneLease(id);
      assert m[id := m[id]] == m;
    }

    /** The first half of beat: sort the valid leases by queue, notify the holders of the others. */
    method Check(now: int) returns (idsByQueue: map<string, seq<string>>)
      requires Valid()
      modifies AllLeases()
      ensures Leases() == NotifySome(old(Leases()), workers.Keys, now)
      ensures SortedByQueue(idsByQueue, Current(old(Leases()), now), QueueOf())
    {
      hide Apply, NotifySome, SortedByQueue, ValidAt, Current, Valid, Leases, QueueOf, AddTo;
      idsByQueue := map[];
      ghost var m, queueOf := Leases(), QueueOf();
      ghost var seen: set<string> := {};
      var todo := workers.Keys;
      LeasesKnown();
      NotifyNone(m, now);
      SortedNone(queueOf);
      assert Current(m, now) * {} == {};
      while todo != {}
        invariant todo !! seen && todo + seen == workers.Keys
        invariant Leases() == NotifySome(m, seen, now)
        invariant SortedByQueue(idsByQueue, Current(m, now) * seen, queueOf)
        decreases todo
      {
        var id :| id in todo;
        CheckMore(m, seen, id, now, idsByQueue, queueOf);
        idsByQueue := CheckOne(id, now, idsByQueue);
        seen := seen + {id};
        todo := todo - {id};
      }
      CurrentKnown(m, now);
      assert seen == workers.Keys && Current(m, now) * seen == Current(m, now);
    }

    method ResetOne(id: string, now: int)
      requires Valid() && id in workers
      modifies workers[id].lease
      ensures Leases() == ResetSome(old(Leases()), {id}, now)
    {
      hide Valid, Leases, QueueOf, ResetSome, Apply;
      LeaseOf(id);
      ResetOnly(Leases(), id, now);
      var done := workers[id].lease.Reset(now + LEASE_DURATION, now);
      OneLease(id);
    }

    /** The second half of beat for one queue: extend in Redis, then reset the local leases. */
    method ExtendOne(broker: RedisQueue, ids: seq<string>, now: int)
      requires Valid() && broker.Valid() && Elems(ids) <= workers.Keys
      modifies broker, AllLeases()
      ensures broker.Valid() && broker.View() == ExtendLease(old(broker.View()), Elems(ids), Sec(now + LEASE_DURATION))
      ensures Leases() == ResetSome(old(Leases()), Elems(ids), now)
    {
      hide Inv, Exec, ResetSome, ExtendLease, Valid, Leases;
      ExtendEffect(broker.View(), Elems(ids), now);
      ghost var m := Leases();
      var expirationTime := broker.ExtendLease(ids, now);
      ghost var v := broker.View();
      ResetNone(m, now);
      assert Elems(ids[..0]) == {};
      for i := 0 to |ids|
        invariant broker.View() == v
        invariant Leases() == ResetSome(m, Elems(ids[..i]), now)
      {
        ResetTwice(m, Elems(ids[..i]), {ids[i]}, now);
        assert ids[..i + 1] == ids[..i] + [ids[i]];
        assert Elems(ids[..i + 1]) == Elems(ids[..i]) + {ids[i]};
        ResetOne(ids[i], now);
      }
      assert ids[..|ids|] == ids;
    }

    method BeatOne(rdb: RDB, n: string, ids: seq<string>, now: int)
      requires Valid() && rdb.Valid() && n in rdb.queues && Elems(ids) <= workers.Keys
      modifies AllLeases(), rdb.queues[n]
      ensures rdb.Valid()
      ensures rdb.Views() == old(rdb.Views())[n := ExtendLease(old(rdb.Views())[n], Elems(ids), Sec(now + LEASE_DURATION))]
      ensures Leases() == ResetSome(old(Leases()), Elems(ids), now)
    {
      hide Inv, ExtendLease, ResetSome, RDB.Valid, RedisQueue.Valid, RDB.Views;
      rdb.Member(n);
      ExtendOne(rdb.queues[n], ids, now);
      rdb.OneChanged(n);
    }

    lemma QueuesKnown(rdb: RDB, idsByQueue: map<string, seq<string>>, ids: set<string>)
      requires forall id | id in workers :: workers[id].m.queue in rdb.queues
      requires SortedByQueue(idsByQueue, ids, QueueOf()) && ids <= workers.Keys
      ensures forall n | n in idsByQueue && idsByQueue[n] != [] :: n in rdb.queues
    {
      forall n | n in idsByQueue && idsByQueue[n] != [] ensures n in rdb.queues {
        var id := idsByQueue[n][0];
        assert id in idsByQueue[n] && id in QueueOf() && QueueOf()[id] == n;
      }
    }

    /** The loop over the queues; `ids` are the workers that are listed. */
    method ExtendAll(rdb: RDB, idsByQueue: map<string, seq<string>>, now: int, ghost ids: set<string>)
      requires Valid() && rdb.Valid() && forall id | id in workers :: workers[id].m.queue in rdb.queues
      requires SortedByQueue(idsByQueue, ids, QueueOf()) && ids <= workers.Keys
      modifies AllLeases(), rdb.queues.Values
      ensures rdb.Valid()
      ensures rdb.Views() == Extended(old(rdb.Views()), ids, QueueOf(), now)
      ensures Leases() == ResetSome(old(Leases()), ids, now)
    {
      hide Inv, Extended, ResetSome, SortedByQueue, ExtendLease, Valid, Leases, QueueOf, RDB.Valid, RDB.Views, AllLeases;
      ghost var m, v, queueOf := Leases(), rdb.Views(), QueueOf();
      ghost var done: set<string> := {};
      var todo := idsByQueue.Keys;
      ResetNone(m, now);
      ExtendNone(v, queueOf, now);
      LeasesKnown();
      rdb.Domain();
      QueuesKnown(rdb, idsByQueue, ids);
      while todo != {}
        invariant rdb.Valid() && todo <= idsByQueue.Keys
        invariant done <= ids && forall n | n in idsByQueue && n !in todo :: Elems(idsByQueue[n]) <= done
        invariant rdb.Views() == Extended(v, done, queueOf, now)
        invariant Leases() == ResetSome(m, done, now)
        decreases todo
      {
        var n :| n in todo;
        SortedIds(idsByQueue, ids, queueOf, n);
        if idsByQueue[n] != [] {
          assert idsByQueue[n][0] in Elems(idsByQueue[n]);
          ExtendMore(v, done, Elems(idsByQueue[n]), queueOf, n, now);
          ResetTwice(m, done, Elems(idsByQueue[n]), now);
          BeatOne(rdb, n, idsByQueue[n], now);
        }
        assert idsByQueue[n] == [] ==> done + Elems(idsByQueue[n]) == done;
        done := done + Elems(idsByQueue[n]);
        todo := todo - {n};
      }
      SortedAll(idsByQueue, ids, queueOf, done);
    }

    /**
     One heartbeat: in every queue the scores of the workers with a valid lease, and of no others,
     become now + 30 s; their local leases follow, and the other workers are told of their expiry.
     */
    method Beat(rdb: RDB, now: int)
      requires Valid() && rdb.Valid() && forall id | id in workers :: workers[id].m.queue in rdb.queues
      modifies AllLeases(), rdb.queues.Values
      ensures rdb.Valid() && Valid() && workers == old(workers)
      ensures rdb.Views() == Extended(old(rdb.Views()), Current(old(Leases()), now), QueueOf(), now)
      ensures Leases() == Beaten(old(Leases()), now)
      ensures Told(old(Leases()), Leases(), now)
      ensures Rescored(old(rdb.Views()), rdb.Views(), old(Leases()), QueueOf(), now)
    {
      hide Inv, Extended, NotifySome, ResetSome, SortedByQueue, Beaten, Current, ValidAt;
      hide Valid, AllLeases, Leases, QueueOf, RDB.Valid, RDB.Views, Told, Rescored;
      ghost var m := Leases();
      BeatenIsTold(m, now);
      ExtendedIsRescored(rdb.Views(), m, QueueOf(), now);
      LeasesKnown();
      CurrentKnown(m, now);
      var idsByQueue := Check(now);
      ExtendAll(rdb, idsByQueue, now, Current(m, now));
      BeatenInTwo(m, now);
    }
  }

  lemma ResetNone(m: LeaseViews, now: int)
    ensures ResetSome(m, {}, now) == m
  {
  }

  // ---------------------------------------------------------------- a beat in the protocol

  /** The part of the server's leases that belongs to one queue. */
  function InQueue(m: LeaseViews, queueOf: map<string, string>, n: string): LeaseViews {
    map id | id in m && id in queueOf && queueOf[id] == n :: m[id]
  }

  /** A beat acts on each queue as if it were the only one. */
  lemma BeatByQueue(v: map<string, QueueState>, m: LeaseViews, queueOf: map<string, string>, n: string, now: int)
    requires n in v
    ensures Extended(v, Current(m, now), queueOf, now)[n]
            == ExtendLease(v[n], Current(InQueue(m, queueOf, n), now), Sec(now + LEASE_DURATION))
    ensures InQueue(Beaten(m, now), queueOf, n) == Beaten(InQueue(m, queueOf, n), now)
  {
    hide Rescore, Apply;
    assert IdsIn(Current(m, now), queueOf, n) == Current(InQueue(m, queueOf, n), now);
  }

  /** The leases are those of the protocol's workers on the node; `wid` tells which. */
  ghost predicate Mirrors(s: Sys, node: string, m: LeaseViews, wid: map<string, nat>) {
    && wid.Keys == m.Keys
    && (forall a, b | a in wid && b in wid && a != b :: wid[a] != wid[b])
    && (forall id | id in m ::
          && wid[id] in s.workers && s.workers[wid[id]].node == node && s.workers[wid[id]].m.id == id
          && s.workers[wid[id]].deadline == m[id].expireAt && s.workers[wid[id]].grant.None?)
  }

  function Wids(wid: map<string, nat>, ids: seq<string>): set<nat> {
    set id | id in ids && id in wid :: wid[id]
  }

  function Resets(wid: map<string, nat>, ids: seq<string>): seq<Action>
    requires forall id | id in ids :: id in wid
  {
    if ids == [] then [] else [AReset(wid[ids[0]])] + Resets(wid, ids[1..])
  }

  function Renewed(s: Sys, wids: set<nat>, until: int): map<nat, Worker> {
    map w | w in s.workers :: if w in wids then s.workers[w].(grant := None, deadline := until) else s.workers[w]
  }

  lemma {:induction false} ResetsRenew(cfg: Config, s: Sys, wid: map<string, nat>, ids: seq<string>, until: int)
    requires NoDup(ids) && (forall id | id in ids :: id in wid)
    requires forall a, b | a in wid && b in wid && a != b :: wid[a] != wid[b]
    requires forall id | id in ids :: LeaseValid(s, wid[id]) && s.workers[wid[id]].grant == Some(until)
    ensures Allowed(cfg, s, Resets(wid, ids))
    ensures Run(s, Resets(wid, ids)) == s.(workers := Renewed(s, Wids(wid, ids), until))
    decreases ids
  {
    hide Step, Enabled, Renewed, LeaseValid;
    if ids == [] {
      RenewedNone(s, until);
      assert Wids(wid, ids) == {};
    } else {
      var a := AReset(wid[ids[0]]);
      var rest := ids[1..];
      assert forall i | 0 <= i < |rest| :: rest[i] == ids[i + 1] && rest[i] != ids[0];
      var t := Step(s, a);
      ResetOne(cfg, s, wid[ids[0]], until);
      assert forall id | id in rest :: wid[id] != wid[ids[0]];
      ResetsRenew(cfg, t, wid, rest, until);
      assert Wids(wid, ids) == {wid[ids[0]]} + Wids(wid, rest);
      RenewedMore(s, t, wid[ids[0]], Wids(wid, rest), until);
      RunFirst(cfg, s, a, Resets(wid, rest));
    }
  }

  lemma RenewedNone(s: Sys, until: int)
    ensures Renewed(s, {}, until) == s.workers
  {
  }

  lemma ResetOne(cfg: Config, s: Sys, w: nat, until: int)
    requires LeaseValid(s, w) && s.workers[w].grant == Some(until)
    ensures var t := Step(s, AReset(w));
            && Enabled(cfg, s, AReset(w))
            && t == s.(workers := s.workers[w := s.workers[w].(grant := None, deadline := until)])
            && forall v | v != w && LeaseValid(s, v) :: LeaseValid(t, v) && t.workers[v] == s.workers[v]
  {
  }

  lemma RenewedMore(s: Sys, t: Sys, w: nat, wids: set<nat>, until: int)
    requires w in s.workers && t.workers == s.workers[w := s.workers[w].(grant := None, deadline := until)]
    ensures Renewed(t, wids, until) == Renewed(s, {w} + wids, until)
  {
  }

  /**
   A beat of a server is a run that the protocol allows: the clock reading, one extension for the
   workers with a valid lease, and a reset for each of them.  It does to scores and leases what
   Beat does, and nothing to other workers.
   */
  lemma BeatIsProtocolRun(cfg: Config, s: Sys, node: string, m: LeaseViews, wid: map<string, nat>, ids: seq<string>)
    requires node in s.clock && node !in s.beats && Mirrors(s, node, m, wid) && 0 <= cfg.latency
    requires NoDup(ids) && Elems(ids) == Current(m, s.clock[node])
    requires cfg.atomicBeat ==> forall id | id in ids && id in wid :: Live(s, wid[id])
    ensures forall id | id in ids :: id in wid
    ensures var now := s.clock[node];
            var run := [ARead(node, Wids(wid, ids)), AExtend(node, Wids(wid, ids))] + Resets(wid, ids);
            var t := Run(s, run);
            && Allowed(cfg, s, run)
            && t.q == ExtendLease(s.q, Current(m, now), Sec(now + LEASE_DURATION))
            && Mirrors(t, node, Beaten(m, now), wid)
            && t == s.(q := t.q, workers := t.workers) && t.workers.Keys == s.workers.Keys
            && forall w | w in s.workers && w !in wid.Values :: t.workers[w] == s.workers[w]
  {
    hide Exec, ExtendLease, Resets, Step, Enabled, Mirrors, Beaten, Current, Wids, Renewed, Granted, Run, Allowed, LeaseValid;
    CurrentIds(s, node, m, wid, ids);
    var now, ws := s.clock[node], Wids(wid, ids);
    var until := now + LEASE_DURATION;
    var s1, s2 := Step(s, ARead(node, ws)), Step(Step(s, ARead(node, ws)), AExtend(node, ws));
    ReadAndExtend(cfg, s, node, m, wid, ids);
    GrantedValid(s, s2, node, m, wid, ids, until);
    ResetsRenew(cfg, s2, wid, ids, until);
    var run := [ARead(node, ws), AExtend(node, ws)] + Resets(wid, ids);
    AfterTwo(cfg, s, ARead(node, ws), AExtend(node, ws), Resets(wid, ids));
    assert Run(s, run) == s2.(workers := Renewed(s2, ws, until));
    RenewedMirrors(s, s2, node, m, wid, ids, until);
  }

  lemma AfterTwo(cfg: Config, s: Sys, a: Action, b: Action, rest: seq<Action>)
    ensures var t := Step(Step(s, a), b); var run := [a, b] + rest;
            && Run(s, run) == Run(t, rest)
            && (Allowed(cfg, s, run) <==> Enabled(cfg, s, a) && Enabled(cfg, Step(s, a), b) && Allowed(cfg, t, rest))
  {
    hide Step, Enabled, Run, Allowed;
    assert [a, b] + rest == [a] + ([b] + rest);
    RunFirst(cfg, s, a, [b] + rest);
    RunFirst(cfg, Step(s, a), b, rest);
  }

  lemma CurrentIds(s: Sys, node: string, m: LeaseViews, wid: map<string, nat>, ids: seq<string>)
    requires node in s.clock && Mirrors(s, node, m, wid) && Elems(ids) == Current(m, s.clock[node])
    ensures forall id | id in ids :: id in wid && wid[id] in s.workers && LeaseValid(s, wid[id])
    ensures forall a, b | a in wid && b in wid && a != b :: wid[a] != wid[b]
  {
    forall id | id in ids ensures id in m && ValidAt(m[id], s.clock[node]) { assert id in Elems(ids); }
  }

  lemma ReadAndExtend(cfg: Config, s: Sys, node: string, m: LeaseViews, wid: map<string, nat>, ids: seq<string>)
    requires node in s.clock && node !in s.beats && Mirrors(s, node, m, wid) && 0 <= cfg.latency
    requires Elems(ids) == Current(m, s.clock[node])
    requires forall id | id in ids :: id in wid && wid[id] in s.workers && LeaseValid(s, wid[id])
    requires cfg.atomicBeat ==> forall id | id in ids && id in wid :: Live(s, wid[id])
    ensures var now, ws := s.clock[node], Wids(wid, ids);
            var s1 := Step(s, ARead(node, ws));
            && Enabled(cfg, s, ARead(node, ws)) && Enabled(cfg, s1, AExtend(node, ws))
            && Step(s1, AExtend(node, ws)) ==
               s.(q := ExtendLease(s.q, Current(m, now), Sec(now + LEASE_DURATION)),
                  workers := Granted(s, ws, now + LEASE_DURATION))
  {
    hide Exec, ExtendLease, Current, Step, Wids, IdsOf, Enabled;
    var now, ws := s.clock[node], Wids(wid, ids);
    var s1 := Step(s, ARead(node, ws));
    ReadState(s, node, ws);
    ExtendedState(s1, node, ws);
    IdsOfWids(s, node, m, wid, ids);
    SameWorkers(s, s1, ws, now + LEASE_DURATION);
    ExtendEffect(s.q, Current(m, now), now);
    assert s1.beats - {node} == s.beats;
    BeatEnabled(cfg, s, s1, node, m, wid, ids);
  }

  lemma SameWorkers(s: Sys, t: Sys, wids: set<nat>, until: int)
    requires t.workers == s.workers
    ensures IdsOf(t, wids) == IdsOf(s, wids) && Granted(t, wids, until) == Granted(s, wids, until)
  {
  }

  lemma BeatEnabled(cfg: Config, s: Sys, s1: Sys, node: string, m: LeaseViews, wid: map<string, nat>, ids: seq<string>)
    requires node in s.clock && node !in s.beats && Mirrors(s, node, m, wid) && 0 <= cfg.latency
    requires s1 == s.(beats := s.beats[node := Beat(s.clock[node], Wids(wid, ids))])
    requires forall id | id in ids :: id in wid && wid[id] in s.workers && LeaseValid(s, wid[id])
    requires cfg.atomicBeat ==> forall id | id in ids && id in wid :: Live(s, wid[id])
    ensures Enabled(cfg, s, ARead(node, Wids(wid, ids))) && Enabled(cfg, s1, AExtend(node, Wids(wid, ids)))
  {
    hide Exec, Within;
  }

  lemma GrantedValid(s: Sys, s2: Sys, node: string, m: LeaseViews, wid: map<string, nat>, ids: seq<string>, until: int)
    requires forall id | id in ids :: id in wid && wid[id] in s.workers && LeaseValid(s, wid[id])
    requires s2.clock == s.clock && s2.workers == Granted(s, Wids(wid, ids), until)
    ensures forall id | id in ids :: LeaseValid(s2, wid[id]) && s2.workers[wid[id]].grant == Some(until)
    ensures s2.workers.Keys == s.workers.Keys
  {
    forall id | id in ids ensures wid[id] in Wids(wid, ids) { }
  }

  lemma IdsOfWids(s: Sys, node: string, m: LeaseViews, wid: map<string, nat>, ids: seq<string>)
    requires Mirrors(s, node, m, wid) && forall id | id in ids :: id in wid
    ensures IdsOf(s, Wids(wid, ids)) == Elems(ids)
  {
    forall id | id in ids ensures id in IdsOf(s, Wids(wid, ids)) { assert wid[id] in Wids(wid, ids); }
  }

  lemma RenewedMirrors(s: Sys, s2: Sys, node: string, m: LeaseViews, wid: map<string, nat>, ids: seq<string>, until: int)
    requires node in s.clock && Mirrors(s, node, m, wid) && Elems(ids) == Current(m, s.clock[node])
    requires until == s.clock[node] + LEASE_DURATION && s2.workers == Granted(s, Wids(wid, ids), until)
    ensures Mirrors(s2.(workers := Renewed(s2, Wids(wid, ids), until)), node, Beaten(m, s.clock[node]), wid)
    ensures var ws := Renewed(s2, Wids(wid, ids), until);
            ws.Keys == s.workers.Keys && forall w | w in s.workers && w !in wid.Values :: ws[w] == s.workers[w]
  {
    forall id | id in m ensures wid[id] in Wids(wid, ids) <==> id in Current(m, s.clock[node]) {
      if id in ids { assert wid[id] in Wids(wid, ids); }
    }
  }
}
