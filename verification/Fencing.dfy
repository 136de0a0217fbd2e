/**
 Fencing: while a worker may still write, under a valid local lease or because a write decided on
 under it is on its way, the task is its attempt and nobody else's.
 The local lease has full precision and is extended after Redis; the score in Redis is cut to
 seconds and may be written late; recoverers wait another 30 s.  Limits shows that the conditions
 found here are exact.
 */
module Fencing {
  import opened Base
  import opened Queues
  import opened Invariant
  import opened Effects
  import opened Runs
  import opened Protocol

  /** How far a heartbeat of another server, or a late one, may pull the score below an attempt's local lease. */
  function Slack(cfg: Config): int {
    if cfg.atomicBeat then 0 else cfg.skew + cfg.latency
  }

  /** Worker w owns the running attempt of its task: active, leased, its own message, last to dequeue. */
  ghost predicate Owns(s: Sys, w: nat)
    requires w in s.workers
  {
    var id := s.workers[w].m.id;
    && id in s.q.active && id in s.q.lease
    && id in s.q.tasks && s.q.tasks[id].msg == Some(s.workers[w].m)
    && id in s.owner && s.owner[id] == w
  }

  /** The score in Redis covers the local lease, the extension on its way to it, and the lease of a last write. */
  ghost predicate Covered(cfg: Config, s: Sys, w: nat)
    requires w in s.workers
  {
    var k := s.workers[w];
    k.m.id in s.q.lease
    && Sec(k.deadline - Slack(cfg)) <= s.q.lease[k.m.id]
    && (k.grant.Some? ==> Sec(k.grant.value - Slack(cfg)) <= s.q.lease[k.m.id])
    && (k.write.Some? ==> Sec(k.write.value.limit - Slack(cfg)) <= s.q.lease[k.m.id])
  }

  /** A last write takes effect soon after the lease it was decided on under, or not at all. */
  predicate InTime(cfg: Config, k: Worker) {
    k.write.Some? ==> k.write.value.latest <= k.write.value.limit + cfg.delivery
  }

  ghost predicate Guarded(cfg: Config, s: Sys, w: nat) {
    w in s.workers && Owns(s, w) && Covered(cfg, s, w) && InTime(cfg, s.workers[w])
  }

  ghost predicate WorkersFenced(cfg: Config, s: Sys) {
    forall w | Live(s, w) :: Guarded(cfg, s, w)
  }

  predicate NoLater(k: Worker, time: int) {
    k.deadline <= time && (k.grant.Some? ==> k.grant.value <= time) && (k.write.Some? ==> k.write.value.limit <= time)
  }

  ghost predicate LeasesBounded(s: Sys) {
    forall w | w in s.workers ::
      s.workers[w].node in s.clock && NoLater(s.workers[w], s.clock[s.workers[w].node] + LEASE_DURATION)
  }

  /** What a heartbeat under way is going to write is no earlier than what its workers have. */
  ghost predicate BeatsBounded(s: Sys) {
    && (forall n | n in s.beats :: n in s.clock && s.beats[n].reading <= s.clock[n])
    && (forall n, w | n in s.beats && w in s.beats[n].wids ::
          w in s.workers && s.workers[w].node == n && NoLater(s.workers[w], s.beats[n].reading + LEASE_DURATION))
  }

  ghost predicate NobodyLive(s: Sys, id: string) {
    forall w | Live(s, w) :: w in s.workers && s.workers[w].m.id != id
  }

  /** The task is as it was when it was listed. */
  ghost predicate Expired(s: Sys, m: TaskMessage) {
    m.id in s.q.active && m.id in s.q.tasks && s.q.tasks[m.id].msg == Some(m)
  }

  /** The task cannot be dequeued before it is due for a retry. */
  predicate Away(q: QueueState, id: string, due: int) {
    && id !in q.active && id !in q.pending && id !in q.scheduled
    && (id in q.retry ==> q.retry[id] >= due)
  }

  /** Another sweep has moved the task, and it cannot run again before the node's own sweep is over. */
  ghost predicate TakenBack(cfg: Config, s: Sys, node: string, id: string)
    requires node in s.sweeps
  {
    && cfg.sweeping.Timed?
    && Away(s.q, id, Sec(s.sweeps[node].started - cfg.skew - cfg.sweeping.time + cfg.sweeping.delay))
  }

  /** A move of this task by the node hits no live worker. */
  ghost predicate Harmless(cfg: Config, s: Sys, node: string, m: TaskMessage)
    requires node in s.sweeps
  {
    Open(cfg, s, node) ==> NobodyLive(s, m.id) && (Expired(s, m) || TakenBack(cfg, s, node, m.id))
  }

  ghost predicate SweepsHarmless(cfg: Config, s: Sys) {
    forall n, i | n in s.sweeps && 0 <= i < |s.sweeps[n].left| :: Harmless(cfg, s, n, s.sweeps[n].left[i])
  }

  ghost predicate SweepsApart(cfg: Config, s: Sys) {
    && (forall n | n in s.sweeps :: n in s.clock && s.sweeps[n].started <= s.clock[n])
    && (forall n, i, j | n in s.sweeps && 0 <= i < j < |s.sweeps[n].left| :: s.sweeps[n].left[i].id != s.sweeps[n].left[j].id)
    && (cfg.sweeping.Exclusive? ==>
          forall n, k | n in s.sweeps && k in s.sweeps && n != k :: s.sweeps[n].left == [] || s.sweeps[k].left == [])
  }

  ghost predicate SysInv(cfg: Config, s: Sys) {
    && Sound(cfg, s) && Within(cfg, s.clock)
    && LeasesBounded(s) && BeatsBounded(s) && WorkersFenced(cfg, s)
    && SweepsApart(cfg, s) && SweepsHarmless(cfg, s)
  }

  predicate Tolerable(cfg: Config) {
    && 0 <= cfg.skew && 0 <= cfg.latency && 0 <= cfg.delivery
    && cfg.skew + Slack(cfg) + cfg.delivery <= 29 * SECOND
    && match cfg.sweeping
       case Exclusive => true
       case Timed(time, delay) => 2 * time + 2 * cfg.skew + SECOND <= delay
       case Free => false
  }

  // ---------------------------------------------------------------- what a step leaves alone

  /** A broker call that ends an attempt of `id` leaves every other active task alone. */
  lemma TerminalFrame(q: QueueState, name: string, m: TaskMessage, o: Outcome, now: int, id: string)
    requires Inv(q, name) && m.queue == name && m.id in q.active
    requires id in q.active && id != m.id
    ensures Untouched(q, Exec(q, TerminalCmd(m, o, now)).q, id)
  {
    hide Inv, Exec, Trimmed;
    var c := TerminalCmd(m, o, now);
    AtHolds(q, name, id, Active);
    assert !At(q, id, Archived);
    StepFrame(q, c, id);
  }

  /** Calls that can reach an active task at all: the end of its attempt, an extension, a result. */
  predicate Reaches(c: Cmd, id: string) {
    match c
    case CDone(m, _) => m.id == id
    case CMarkAsComplete(m, _) => m.id == id
    case CRequeue(m, _) => m.id == id
    case CRetry(m, _, _, _, _) => m.id == id
    case CArchive(m, _, _, _) => m.id == id
    case CExtendLease(ids, _) => id in ids
    case CWriteResult(i, _, _) => i == id
    case _ => false
  }

  lemma ActiveUntouched(q: QueueState, name: string, c: Cmd, id: string)
    requires Inv(q, name) && Addressed(name, c) && id in q.active && !Reaches(c, id)
    ensures Untouched(q, Exec(q, c).q, id)
  {
    hide Inv, Exec, Untouched, Trimmed, ReadyIds, ExpiredIds;
    AtHolds(q, name, id, Active);
    assert !At(q, id, Pending);
    if !Touches(q, c, id) {
      StepFrame(q, c, id);
    } else {
      match c
      case CForward(src, now) => ForwardTarget(q, name, src, now, FORWARD_BATCH, id);
      case CDeleteExpired(now, batch) => DeleteExpiredTarget(q, name, now, batch, id);
      case CArchive(m, err, now, cutoff) => ArchiveTarget(q, name, m, err, now, cutoff);
      case CDequeue(_) =>
      case _ =>
        ClientTarget(q, name, c);
        OnlyLocks(q, Exec(q, c).q, id);
    }
  }

  lemma OnlyLocks(q: QueueState, q': QueueState, id: string)
    requires q' == q.(locks := q'.locks)
    ensures Untouched(q, q', id)
  {
  }

  /** A task that is away stays away, unless it is accepted anew or its retry falls due. */
  lemma AwayStep(q: QueueState, name: string, c: Cmd, id: string, due: int)
    requires Inv(q, name) && Addressed(name, c) && Away(q, id, due) && !Accepts(q, c, id)
    requires c.CForward? ==> Sec(c.now) < due
    ensures Away(Exec(q, c).q, id, due)
  {
    hide Inv, Exec, Trimmed, ReadyIds, ExpiredIds;
    if !Touches(q, c, id) {
      StepFrame(q, c, id);
    } else {
      match c
      case CDone(_, _) => AllOrNothing(q, name, c);
      case CMarkAsComplete(_, _) => AllOrNothing(q, name, c);
      case CRequeue(_, _) => AllOrNothing(q, name, c);
      case CRetry(_, _, _, _, _) => AllOrNothing(q, name, c);
      case CArchive(m, err, now, cutoff) =>
        AllOrNothing(q, name, c);
        if m.id in q.active { ExecArchive(q, c); ArchiveTarget(q, name, m, err, now, cutoff); }
      case CForward(src, now) => DueIsReady(q, name, src, now, id);
      case CDeleteExpired(now, batch) =>
        ExecDeleteExpired(q, now, batch);
        DeleteExpiredTarget(q, name, now, batch, id);
      case CDequeue(_) =>
      case CExtendLease(_, _) => QuietStep(q, c);
      case CWriteResult(_, _, _) => QuietStep(q, c);
      case _ => ClientTarget(q, name, c);
    }
  }

  lemma DueIsReady(q: QueueState, name: string, src: Source, now: int, id: string)
    requires id in ReadyIds(q, src, now, FORWARD_BATCH)
    ensures if src.FromScheduled? then id in q.scheduled else id in q.retry && q.retry[id] <= Sec(now)
  {
  }

  // ---------------------------------------------------------------- who is live

  /** A live worker was live before the step, with the same task, or has just dequeued it. */
  lemma LiveAfter(cfg: Config, s: Sys, a: Action, w: nat)
    requires Enabled(cfg, s, a) && Live(Step(s, a), w)
    ensures var t := Step(s, a);
            || (Live(s, w) && t.workers[w].m == s.workers[w].m && t.workers[w].node == s.workers[w].node)
            || (a.ADequeue? && w == a.wid && Effect(s, a).reply == Message(t.workers[w].m))
  {
    hide Effect, CmdOf, NextBeats, NextSweeps, NextOwner, NextLedger, Within, FreshMessage, Open;
  }

  /** Nobody comes to be live on a task except by taking it from pending. */
  lemma StillNobody(cfg: Config, s: Sys, a: Action, id: string)
    requires Sound(cfg, s) && Enabled(cfg, s, a) && NobodyLive(s, id) && id !in s.q.pending
    ensures NobodyLive(Step(s, a), id)
  {
    hide Inv, Step, Live, Effect, Enabled;
    var t := Step(s, a);
    forall w | Live(t, w) ensures w in t.workers && t.workers[w].m.id != id {
      LiveIn(t, w);
      LiveAfter(cfg, s, a, w);
      if a.ADequeue? && Effect(s, a).reply.Message? { TakenFromPending(cfg, s, a); }
    }
  }

  lemma LiveIn(s: Sys, w: nat)
    requires Live(s, w)
    ensures w in s.workers && s.workers[w].running
  {
  }

  lemma TakenFromPending(cfg: Config, s: Sys, a: Action)
    requires Sound(cfg, s) && a.ADequeue? && Effect(s, a).reply.Message?
    ensures Effect(s, a).reply.msg.id in s.q.pending
  {
    hide Inv;
    DequeueReply(s.q, cfg.name, a.at);
    DequeueDelivers(s.q, cfg.name, Sec(a.at + LEASE_DURATION));
  }

  // ---------------------------------------------------------------- bookkeeping

  /** Only a client's call accepts a task. */
  lemma AcceptsIsClient(s: Sys, a: Action, id: string)
    requires CmdOf(s, a).Some? && Accepts(s.q, CmdOf(s, a).value, id)
    ensures a.AClient? && a.c == CmdOf(s, a).value && a.c.m.id == id && Exec(s.q, a.c).reply == Ok
  {
    hide Exec, Live, IdsOf;
  }

  /** What a step does to a worker: its times stay within the bound, or come from a beat under way or the clock. */
  lemma WorkerTimes(cfg: Config, s: Sys, a: Action, w: nat)
    requires Enabled(cfg, s, a) && w in Step(s, a).workers
    ensures var k := Step(s, a).workers[w];
            || (w !in s.workers && k.node in s.clock && NoLater(k, s.clock[k.node] + LEASE_DURATION))
            || (w in s.workers && k.node == s.workers[w].node && forall time :: NoLater(s.workers[w], time) ==> NoLater(k, time))
            || (&& w in s.workers && k.node == s.workers[w].node && a.AExtend? && a.node in s.beats && w in s.beats[a.node].wids
                && forall time | s.beats[a.node].reading + LEASE_DURATION <= time :: NoLater(s.workers[w], time) ==> NoLater(k, time))
  {
    hide Effect, CmdOf, NextBeats, NextSweeps, NextOwner, NextLedger, Within, FreshMessage, Open, Live;
  }

  /** A worker's lease can only have been made by readings of its own server's clock. */
  lemma LeasesStep(cfg: Config, s: Sys, a: Action)
    requires LeasesBounded(s) && BeatsBounded(s) && Enabled(cfg, s, a)
    ensures LeasesBounded(Step(s, a))
  {
    hide Step, Enabled;
    ClockAfter(cfg, s, a);
    var t := Step(s, a);
    forall w | w in t.workers
      ensures t.workers[w].node in t.clock && NoLater(t.workers[w], t.clock[t.workers[w].node] + LEASE_DURATION)
    {
      WorkerTimes(cfg, s, a, w);
      if w in s.workers { assert NoLater(s.workers[w], s.clock[s.workers[w].node] + LEASE_DURATION); }
    }
  }

  lemma BeatsStep(cfg: Config, s: Sys, a: Action)
    requires LeasesBounded(s) && BeatsBounded(s) && Enabled(cfg, s, a)
    ensures BeatsBounded(Step(s, a))
  {
    hide Step, Enabled;
    ClockAfter(cfg, s, a);
    var t := Step(s, a);
    forall n | n in t.beats ensures n in t.clock && t.beats[n].reading <= t.clock[n] { BeatAfter(cfg, s, a, n); }
    forall n, w | n in t.beats && w in t.beats[n].wids
      ensures w in t.workers && t.workers[w].node == n && NoLater(t.workers[w], t.beats[n].reading + LEASE_DURATION)
    {
      BeatAfter(cfg, s, a, n);
      WorkersStay(s, a);
      WorkerTimes(cfg, s, a, w);
    }
  }

  /** A beat was under way before, on another node than one that is landing, or starts with the present reading. */
  lemma BeatAfter(cfg: Config, s: Sys, a: Action, n: string)
    requires Enabled(cfg, s, a) && n in Step(s, a).beats
    ensures var b := Step(s, a).beats[n];
            || (n in s.beats && b == s.beats[n] && (a.AExtend? ==> a.node in s.beats && a.node != n))
            || (n in s.clock && b.reading == s.clock[n] && !a.AExtend?
                && forall w | w in b.wids :: w in s.workers && s.workers[w].node == n)
  {
    hide Effect, CmdOf, NextWorkers, NextSweeps, NextOwner, NextLedger, Within, FreshMessage, Open, Live;
  }

  lemma WorkersStay(s: Sys, a: Action)
    ensures s.workers.Keys <= Step(s, a).workers.Keys
  {
    hide Effect, CmdOf, NextBeats, NextSweeps, NextOwner, NextLedger;
  }

  lemma WithinStep(cfg: Config, s: Sys, a: Action)
    requires Within(cfg, s.clock) && Enabled(cfg, s, a)
    ensures Within(cfg, Step(s, a).clock)
    ensures s.clock.Keys == Step(s, a).clock.Keys && forall n | n in s.clock :: s.clock[n] <= Step(s, a).clock[n]
  {
    hide Effect, NextWorkers, NextBeats, NextSweeps, NextOwner, NextLedger;
    if !a.ATick? { hide Enabled; }
  }

  // ---------------------------------------------------------------- workers

  /** A worker stays fenced when its record, its task and its ownership are as before. */
  lemma WorkerFrame(cfg: Config, s: Sys, t: Sys, w: nat)
    requires Guarded(cfg, s, w)
    requires w in t.workers && t.workers[w] == s.workers[w]
    requires var id := s.workers[w].m.id; Untouched(s.q, t.q, id) && id in t.owner && t.owner[id] == s.owner[id]
    ensures Guarded(cfg, t, w)
  {
  }

  lemma DequeueWorkers(cfg: Config, s: Sys, a: Action)
    requires Tolerable(cfg) && SysInv(cfg, s) && Enabled(cfg, s, a) && a.ADequeue?
    ensures WorkersFenced(cfg, Step(s, a))
  {
    hide Inv, Exec, Untouched, SysInv, Live, Guarded, NextBeats, NextSweeps, NextLedger, Within;
    Parts(cfg, s);
    var t := Step(s, a);
    DequeueReply(s.q, cfg.name, a.at);
    DequeueDelivers(s.q, cfg.name, Sec(a.at + LEASE_DURATION));
    forall w | Live(t, w) ensures Guarded(cfg, t, w) {
      LiveIn(t, w);
      LiveAfter(cfg, s, a, w);
      if Live(s, w) {
        LiveIn(s, w);
        OwnsActive(cfg, s, w);
        ActiveUntouched(s.q, cfg.name, CDequeue(a.at), s.workers[w].m.id);
        WorkerFrame(cfg, s, t, w);
      } else {
        NewWorker(cfg, s, a);
      }
    }
  }

  lemma OwnsActive(cfg: Config, s: Sys, w: nat)
    requires Guarded(cfg, s, w)
    ensures s.workers[w].m.id in s.q.active && s.workers[w].m.id in s.owner
  {
  }

  lemma NewWorker(cfg: Config, s: Sys, a: Action)
    requires Tolerable(cfg) && Sound(cfg, s) && a.ADequeue? && Effect(s, a).reply.Message?
    ensures var t := Step(s, a); Guarded(cfg, t, a.wid)
  {
    hide Inv, Exec, NextBeats, NextSweeps, NextLedger;
    DequeueReply(s.q, cfg.name, a.at);
    DequeueDelivers(s.q, cfg.name, Sec(a.at + LEASE_DURATION));
  }

  /** The parts of the invariant. */
  lemma Parts(cfg: Config, s: Sys)
    requires SysInv(cfg, s)
    ensures Sound(cfg, s) && Within(cfg, s.clock) && LeasesBounded(s) && BeatsBounded(s)
    ensures WorkersFenced(cfg, s) && SweepsApart(cfg, s) && SweepsHarmless(cfg, s)
  {
  }

  /** A score that a heartbeat writes covers every lease that its holder may count on. */
  lemma ScoreCovers(cfg: Config, s: Sys, w: nat, node: string)
    requires Tolerable(cfg) && Within(cfg, s.clock) && LeasesBounded(s) && BeatsBounded(s)
    requires w in s.workers && node in s.beats && s.clock[node] <= s.beats[node].reading + cfg.latency
    requires cfg.atomicBeat ==> w in s.beats[node].wids
    ensures var k := s.workers[w]; var until := s.beats[node].reading + LEASE_DURATION;
            NoLater(k, until + Slack(cfg)) && until <= until + Slack(cfg)
  {
    assert NoLater(s.workers[w], s.clock[s.workers[w].node] + LEASE_DURATION);
    assert s.clock[s.workers[w].node] - s.clock[node] <= cfg.skew;
  }

  lemma CoveredByScore(cfg: Config, t: Sys, w: nat, until: int)
    requires w in t.workers && NoLater(t.workers[w], until + Slack(cfg))
    requires t.workers[w].m.id in t.q.lease && t.q.lease[t.workers[w].m.id] == Sec(until)
    ensures Covered(cfg, t, w)
  {
  }

  lemma ExtendWorkers(cfg: Config, s: Sys, a: Action)
    requires Tolerable(cfg) && SysInv(cfg, s) && Enabled(cfg, s, a) && a.AExtend?
    ensures WorkersFenced(cfg, Step(s, a))
  {
    hide Inv, SysInv, Sound, Live, Guarded, Step, Enabled, Within, LeasesBounded, BeatsBounded;
    Parts(cfg, s);
    var t := Step(s, a);
    forall w | Live(t, w) ensures Guarded(cfg, t, w) {
      LiveIn(t, w);
      LiveAfter(cfg, s, a, w);
      ExtendWorker(cfg, s, a, w);
    }
  }

  lemma ExtendWorker(cfg: Config, s: Sys, a: Action, w: nat)
    requires Tolerable(cfg) && SysInv(cfg, s) && Enabled(cfg, s, a) && a.AExtend? && Live(s, w)
    ensures var t := Step(s, a); Guarded(cfg, t, w)
  {
    hide Inv, Exec, SysInv, Sound, Within, LeasesBounded, BeatsBounded, Step, Covered, Live, Owns, IdsOf;
    Parts(cfg, s);
    var t := Step(s, a);
    var ids := IdsOf(s, a.wids);
    var until := s.beats[a.node].reading + LEASE_DURATION;
    ExtendedState(s, a.node, a.wids);
    ExtendEffect(s.q, ids, s.beats[a.node].reading);
    assert Guarded(cfg, s, w);
    ExtendedGuard(cfg, s, t, w, a.wids, until);
    if s.workers[w].m.id in ids {
      Extender(cfg, s, a.wids, w);
      ScoreCovers(cfg, s, w, a.node);
      CoveredByScore(cfg, t, w, until);
    }
  }

  /** An extension leaves ownership alone, and the scores of all workers whose tasks it does not name. */
  lemma ExtendedGuard(cfg: Config, s: Sys, t: Sys, w: nat, wids: set<nat>, until: int)
    requires Guarded(cfg, s, w)
    requires t == s.(q := ExtendLease(s.q, IdsOf(s, wids), Sec(until)), beats := t.beats, workers := Granted(s, wids, until))
    ensures w in t.workers && Owns(t, w) && (s.workers[w].m.id !in IdsOf(s, wids) ==> Covered(cfg, t, w))
    ensures t.workers[w].m == s.workers[w].m
    ensures t.workers[w] == s.workers[w].(grant := if w in wids then Some(until) else s.workers[w].grant)
    ensures var id := s.workers[w].m.id;
            id in t.q.lease && t.q.lease[id] == if id in IdsOf(s, wids) then Sec(until) else s.q.lease[id]
  {
  }

  /** With atomic beats, a task is named only for the worker that is live on it. */
  lemma Extender(cfg: Config, s: Sys, wids: set<nat>, w: nat)
    requires WorkersFenced(cfg, s) && Live(s, w) && w in s.workers && s.workers[w].m.id in IdsOf(s, wids)
    requires cfg.atomicBeat ==> forall v | v in wids :: Live(s, v)
    ensures cfg.atomicBeat ==> w in wids
  {
    var v :| v in wids && v in s.workers && s.workers[v].m.id == s.workers[w].m.id;
    if cfg.atomicBeat { assert Guarded(cfg, s, v) && Guarded(cfg, s, w); }
  }

  lemma ResetWorkers(cfg: Config, s: Sys, a: Action)
    requires SysInv(cfg, s) && Enabled(cfg, s, a) && a.AReset?
    ensures WorkersFenced(cfg, Step(s, a))
  {
    hide Inv, Within, SysInv, Sound, NextBeats, NextSweeps, NextLedger, LeasesBounded, BeatsBounded;
    Parts(cfg, s);
    var t := Step(s, a);
    forall w | Live(t, w) ensures Guarded(cfg, t, w) {
      LiveAfter(cfg, s, a, w);
      assert Guarded(cfg, s, w);
    }
  }

  /** The lease that the worker checks is covered, and so is the write that it allows. */
  lemma CheckWorkers(cfg: Config, s: Sys, a: Action)
    requires SysInv(cfg, s) && Enabled(cfg, s, a) && a.ACheck?
    ensures WorkersFenced(cfg, Step(s, a))
  {
    hide Inv, Within, SysInv, Sound, LeasesBounded, BeatsBounded, Step, Enabled;
    Parts(cfg, s);
    var t := Step(s, a);
    CheckedState(s, a.wid, a.o, a.latest);
    CheckIsInTime(cfg, s, a);
    forall w | Live(t, w) ensures Guarded(cfg, t, w) {
      LiveAfter(cfg, s, a, w);
      assert Guarded(cfg, s, w);
    }
  }

  lemma CheckIsInTime(cfg: Config, s: Sys, a: Action)
    requires Enabled(cfg, s, a) && a.ACheck?
    ensures a.wid in s.workers && a.latest <= s.workers[a.wid].deadline + cfg.delivery
  {
  }

  lemma ResultWorkers(cfg: Config, s: Sys, a: Action)
    requires SysInv(cfg, s) && Enabled(cfg, s, a) && a.AResult?
    ensures WorkersFenced(cfg, Step(s, a))
  {
    hide Inv, Within, SysInv, Sound, Exec, NextBeats, NextSweeps, NextLedger, LeasesBounded, BeatsBounded;
    Parts(cfg, s);
    var t := Step(s, a);
    QuietStep(s.q, CmdOf(s, a).value);
    ResultLeases(s.q, a.id, a.data, Clock(s, a.node));
    forall w | Live(t, w) ensures Guarded(cfg, t, w) {
      assert Live(s, w) && Guarded(cfg, s, w);
    }
  }

  lemma ResultLeases(q: QueueState, id: string, data: seq<bv8>, now: int)
    ensures Exec(q, CWriteResult(id, data, now)).q.lease == q.lease
  {
  }

  /** The steps that end attempts: no live worker's task is hit but the finishing worker's own. */
  lemma EndingWorkers(cfg: Config, s: Sys, a: Action)
    requires SysInv(cfg, s) && Enabled(cfg, s, a) && (a.AWrite? || a.AMove?)
    ensures WorkersFenced(cfg, Step(s, a))
  {
    hide Inv, Within, SysInv, Sound, Exec, Untouched, Live, Guarded, TerminalCmd, NextBeats, NextSweeps, NextLedger, LeasesBounded, BeatsBounded;
    Parts(cfg, s);
    var t := Step(s, a);
    forall w | Live(t, w) ensures Guarded(cfg, t, w) {
      LiveIn(t, w);
      LiveIn(s, w) by { LiveAfter(cfg, s, a, w); }
      LiveAfter(cfg, s, a, w);
      NotHit(cfg, s, a, w);
      OwnsActive(cfg, s, w);
      WorkerFrame(cfg, s, t, w);
    }
  }

  lemma NotHit(cfg: Config, s: Sys, a: Action, w: nat)
    requires SysInv(cfg, s) && Enabled(cfg, s, a) && (a.AWrite? || a.AMove?) && Live(s, w) && Live(Step(s, a), w)
    ensures Untouched(s.q, Step(s, a).q, s.workers[w].m.id)
  {
    hide Inv, Within, SysInv, Exec, Untouched, TerminalCmd, NextBeats, NextSweeps, NextLedger, NextOwner, LeasesBounded, BeatsBounded;
    Parts(cfg, s);
    var id := s.workers[w].m.id;
    StepQueue(s, a);
    if CmdOf(s, a).None? {
      OnlyLocks(s.q, s.q, id);
    } else {
      var m := if a.AWrite? then s.workers[a.wid].m else s.sweeps[a.node].left[0];
      var o := if a.AWrite? then s.workers[a.wid].write.value.o else a.o;
      if a.AWrite? { assert Guarded(cfg, s, a.wid) && Guarded(cfg, s, w); } else { assert Harmless(cfg, s, a.node, m); }
      TerminalAddressed(cfg.name, m, o, a.at);
      ActiveUntouched(s.q, cfg.name, TerminalCmd(m, o, a.at), id);
    }
  }

  /** All other steps. */
  lemma OtherWorkers(cfg: Config, s: Sys, a: Action)
    requires SysInv(cfg, s) && Enabled(cfg, s, a)
    requires !(a.ADequeue? || a.AExtend? || a.AReset? || a.AResult? || a.ACheck? || a.AWrite? || a.AMove?)
    ensures WorkersFenced(cfg, Step(s, a))
  {
    hide Inv, Within, SysInv, Sound, Exec, Untouched, Live, Guarded, NextBeats, NextSweeps, NextLedger, LeasesBounded, BeatsBounded;
    Parts(cfg, s);
    var t := Step(s, a);
    forall w | Live(t, w) ensures Guarded(cfg, t, w) {
      LiveIn(t, w);
      LiveAfter(cfg, s, a, w);
      LiveIn(s, w);
      OwnsActive(cfg, s, w);
      OtherUntouched(cfg, s, a, s.workers[w].m.id);
      WorkerFrame(cfg, s, t, w);
    }
  }

  lemma OtherUntouched(cfg: Config, s: Sys, a: Action, id: string)
    requires Sound(cfg, s) && Enabled(cfg, s, a) && id in s.q.active
    requires !(a.AExtend? || a.AResult? || a.AWrite? || a.AMove?)
    ensures Untouched(s.q, Step(s, a).q, id)
  {
    hide Inv, Step, Exec, Untouched, Within;
    StepQueue(s, a);
    if CmdOf(s, a).Some? {
      CmdAddressed(cfg, s, a);
      ActiveUntouched(s.q, cfg.name, CmdOf(s, a).value, id);
    } else {
      OnlyLocks(s.q, s.q, id);
    }
  }

  lemma WorkersStep(cfg: Config, s: Sys, a: Action)
    requires Tolerable(cfg) && SysInv(cfg, s) && Enabled(cfg, s, a)
    ensures WorkersFenced(cfg, Step(s, a))
  {
    hide SysInv, Enabled, Step, WorkersFenced, Tolerable;
    match a
    case ADequeue(_, _, _) => DequeueWorkers(cfg, s, a);
    case AExtend(_, _) => ExtendWorkers(cfg, s, a);
    case AReset(_) => ResetWorkers(cfg, s, a);
    case AResult(_, _, _) => ResultWorkers(cfg, s, a);
    case ACheck(_, _, _) => CheckWorkers(cfg, s, a);
    case AWrite(_, _) => EndingWorkers(cfg, s, a);
    case AMove(_, _, _) => EndingWorkers(cfg, s, a);
    case _ => OtherWorkers(cfg, s, a);
  }

  // ---------------------------------------------------------------- sweeps

  /** 30 s of grace, less the second lost to truncation and the slack: a live worker's score is not old. */
  lemma LiveScoreIsFresh(cfg: Config, s: Sys, node: string, at: int, w: nat)
    requires Tolerable(cfg) && Within(cfg, s.clock) && WorkersFenced(cfg, s) && Live(s, w)
    requires node in s.clock && at <= s.clock[node]
    ensures var id := s.workers[w].m.id;
            id in s.q.lease && Sec(at - 30 * SECOND) < s.q.lease[id]
  {
    var k := s.workers[w];
    assert Guarded(cfg, s, w);
    assert s.clock[node] - s.clock[k.node] <= cfg.skew;
    var end := if k.write.None? then k.deadline else k.write.value.limit;
    assert at - 29 * SECOND <= end - Slack(cfg);
  }

  lemma ListHarmless(cfg: Config, s: Sys, node: string, at: int, m: TaskMessage)
    requires Tolerable(cfg) && Sound(cfg, s) && Within(cfg, s.clock) && WorkersFenced(cfg, s)
    requires node in s.clock && at <= s.clock[node] && m in LeaseExpired(s.q, Sec(at - 30 * SECOND))
    ensures NobodyLive(s, m.id) && Expired(s, m)
  {
    hide Inv, Within, Sec, LeaseExpired;
    ListedMessages(s.q, cfg.name, Sec(at - 30 * SECOND));
    forall w | Live(s, w) ensures s.workers[w].m.id != m.id { LiveScoreIsFresh(cfg, s, node, at, w); }
  }

  lemma ApartStep(cfg: Config, s: Sys, a: Action)
    requires Sound(cfg, s) && SweepsApart(cfg, s) && Enabled(cfg, s, a)
    ensures SweepsApart(cfg, Step(s, a))
  {
    hide Inv, Step, LeaseExpired, Exec;
    SweepsAfter(s, a);
    if a.AList? { ListedMessages(s.q, cfg.name, Sec(a.at - 30 * SECOND)); }
    ClockAfter(cfg, s, a);
  }

  lemma ClockAfter(cfg: Config, s: Sys, a: Action)
    requires Enabled(cfg, s, a)
    ensures s.clock.Keys == Step(s, a).clock.Keys && forall n | n in s.clock :: s.clock[n] <= Step(s, a).clock[n]
  {
    hide Effect, NextWorkers, NextBeats, NextSweeps, NextOwner, NextLedger;
    if !a.ATick? { hide Enabled; }
  }

  /** A listed task that nobody holds stays harmless until the sweep is over. */
  lemma HarmlessStep(cfg: Config, s: Sys, a: Action, n: string, m: TaskMessage)
    requires Tolerable(cfg) && SysInv(cfg, s) && Enabled(cfg, s, a)
    requires n in s.sweeps && m in s.sweeps[n].left && Harmless(cfg, s, n, m)
    requires a.AMove? && a.node == n ==> m != s.sweeps[n].left[0]
    requires n in Step(s, a).sweeps && Step(s, a).sweeps[n].started == s.sweeps[n].started
    ensures Harmless(cfg, Step(s, a), n, m)
  {
    hide SysInv, Enabled, Step, NobodyLive, Expired, Inv, Away;
    Parts(cfg, s);
    var t := Step(s, a);
    if Open(cfg, t, n) {
      ClockAfter(cfg, s, a);
      assert Open(cfg, s, n);
      NotPending(cfg, s, n, m);
      StillNobody(cfg, s, a, m.id);
      if TakenBack(cfg, s, n, m.id) {
        StaysBack(cfg, s, a, n, m);
      } else {
        ExpiredOrBack(cfg, s, a, n, m);
      }
    }
  }

  lemma NotPending(cfg: Config, s: Sys, n: string, m: TaskMessage)
    requires Sound(cfg, s) && n in s.sweeps && (Expired(s, m) || TakenBack(cfg, s, n, m.id))
    ensures m.id !in s.q.pending
  {
    hide Inv;
    if Expired(s, m) { AtHolds(s.q, cfg.name, m.id, Active); assert !At(s.q, m.id, Pending); }
  }

  lemma StaysBack(cfg: Config, s: Sys, a: Action, n: string, m: TaskMessage)
    requires Tolerable(cfg) && Sound(cfg, s) && Within(cfg, s.clock) && Enabled(cfg, s, a)
    requires n in s.sweeps && m in s.sweeps[n].left && Open(cfg, s, n) && TakenBack(cfg, s, n, m.id)
    requires n in Step(s, a).sweeps && Step(s, a).sweeps[n].started == s.sweeps[n].started
    ensures TakenBack(cfg, Step(s, a), n, m.id)
  {
    hide Inv, Step, Away, Accepts, CmdOf, Exec, Sec;
    var due := Sec(s.sweeps[n].started - cfg.skew - cfg.sweeping.time + cfg.sweeping.delay);
    StepQueue(s, a);
    assert OnOpenList(cfg, s, m.id);
    if CmdOf(s, a).Some? {
      var c := CmdOf(s, a).value;
      CmdAddressed(cfg, s, a);
      if Accepts(s.q, c, m.id) {
        AcceptsIsClient(s, a, m.id);
        assert false;
      }
      if c.CForward? { TooEarly(cfg, s, a, n); }
      AwayStep(s.q, cfg.name, c, m.id, due);
    }
  }

  /**
   While a timed sweep is open, no clock has reached a retry by a sweep that was open with it, even
   if the time of that retry was worked out when that sweep began.
   */
  lemma TooEarly(cfg: Config, s: Sys, a: Action, n: string)
    requires Tolerable(cfg) && cfg.sweeping.Timed? && Within(cfg, s.clock) && Enabled(cfg, s, a)
    requires n in s.sweeps && Open(cfg, s, n) && CmdOf(s, a).Some? && CmdOf(s, a).value.CForward?
    ensures Sec(CmdOf(s, a).value.now) < Sec(s.sweeps[n].started - cfg.skew - cfg.sweeping.time + cfg.sweeping.delay)
  {
    assert a.AForward?;
    assert s.clock[a.node] - s.clock[n] <= cfg.skew;
  }

  lemma ExpiredOrBack(cfg: Config, s: Sys, a: Action, n: string, m: TaskMessage)
    requires Tolerable(cfg) && SysInv(cfg, s) && Enabled(cfg, s, a)
    requires n in s.sweeps && m in s.sweeps[n].left && Open(cfg, s, n) && NobodyLive(s, m.id) && Expired(s, m)
    requires a.AMove? && a.node == n ==> m != s.sweeps[n].left[0]
    requires n in Step(s, a).sweeps && Step(s, a).sweeps[n].started == s.sweeps[n].started
    ensures Expired(Step(s, a), m) || TakenBack(cfg, Step(s, a), n, m.id)
  {
    hide SysInv, Step, Inv, Within, Exec, Untouched, TerminalCmd, Away, LeasesBounded, BeatsBounded, WorkersFenced;
    Parts(cfg, s);
    StepQueue(s, a);
    if a.AExtend? {
      ExtendEffect(s.q, IdsOf(s, a.wids), s.beats[a.node].reading);
    } else if a.AResult? {
      QuietStep(s.q, CmdOf(s, a).value);
    } else if a.AWrite? {
      if CmdOf(s, a).Some? {
        EndingSweep(cfg, s, Step(s, a), n, m, s.workers[a.wid].m, s.workers[a.wid].write.value.o, a.at);
      }
    } else if a.AMove? {
      MoveMeets(cfg, s, a, n, m);
      EndingSweep(cfg, s, Step(s, a), n, m, s.sweeps[a.node].left[0], a.o, a.at);
    } else {
      OtherUntouched(cfg, s, a, m.id);
      ExpiredFrame(s, Step(s, a), m);
    }
  }

  /** A move of a task that another sweep has listed too. */
  lemma MoveMeets(cfg: Config, s: Sys, a: Action, n: string, m: TaskMessage)
    requires Tolerable(cfg) && Within(cfg, s.clock) && SweepsApart(cfg, s) && Enabled(cfg, s, a) && a.AMove?
    requires n in s.sweeps && m in s.sweeps[n].left && Expired(s, m)
    requires a.node == n ==> m != s.sweeps[n].left[0]
    ensures s.sweeps[a.node].left[0].id == m.id ==>
      && cfg.sweeping.Timed? && a.o.delay >= cfg.sweeping.delay
      && s.sweeps[n].started - cfg.skew - cfg.sweeping.time <= a.at
  {
    hide Step, Within;
    if s.sweeps[a.node].left[0].id == m.id {
      if a.node == n { SameEntryTwice(cfg, s, n, m); assert false; }
      NotExclusive(cfg, s, a.node, n);
      assert s.clock[n] - s.clock[a.node] <= cfg.skew by { Apart(cfg, s, n, a.node); }
    }
  }

  lemma Apart(cfg: Config, s: Sys, a: string, b: string)
    requires Within(cfg, s.clock) && a in s.clock && b in s.clock
    ensures s.clock[a] - s.clock[b] <= cfg.skew
  {
  }

  lemma ExpiredFrame(s: Sys, t: Sys, m: TaskMessage)
    requires Expired(s, m) && Untouched(s.q, t.q, m.id)
    ensures Expired(t, m)
  {
  }

  /** The attempt of k has ended; m, on the list of n, is as it was or taken back. */
  lemma EndingSweep(cfg: Config, s: Sys, t: Sys, n: string, m: TaskMessage, k: TaskMessage, o: Outcome, now: int)
    requires Inv(s.q, cfg.name) && k.queue == cfg.name && Expired(s, m) && n in t.sweeps
    requires t.q == Exec(s.q, TerminalCmd(k, o, now)).q
    requires k.id == m.id ==>
      && cfg.sweeping.Timed? && o.Failed? && o.delay >= cfg.sweeping.delay
      && t.sweeps[n].started - cfg.skew - cfg.sweeping.time <= now
    ensures Expired(t, m) || TakenBack(cfg, t, n, m.id)
  {
    hide Inv, Exec, Untouched, TerminalCmd, TakenBack;
    if k.id != m.id {
      TerminalAddressed(cfg.name, k, o, now);
      ActiveUntouched(s.q, cfg.name, TerminalCmd(k, o, now), m.id);
      ExpiredFrame(s, t, m);
    } else {
      MoveTakesBack(cfg, s, t, n, k, o, now);
    }
  }

  lemma SameEntryTwice(cfg: Config, s: Sys, n: string, m: TaskMessage)
    requires SweepsApart(cfg, s) && n in s.sweeps && m in s.sweeps[n].left && m != s.sweeps[n].left[0]
    ensures m.id != s.sweeps[n].left[0].id
  {
    var i :| 0 <= i < |s.sweeps[n].left| && s.sweeps[n].left[i] == m;
    assert 0 < i;
  }

  lemma NotExclusive(cfg: Config, s: Sys, n: string, k: string)
    requires SweepsApart(cfg, s) && n in s.sweeps && k in s.sweeps && n != k
    requires s.sweeps[n].left != [] && s.sweeps[k].left != []
    ensures !cfg.sweeping.Exclusive?
  {
  }

  lemma MoveTakesBack(cfg: Config, s: Sys, t: Sys, n: string, k: TaskMessage, o: Outcome, now: int)
    requires Inv(s.q, cfg.name) && k.queue == cfg.name && k.id in s.q.active && n in t.sweeps
    requires cfg.sweeping.Timed? && o.Failed? && o.delay >= cfg.sweeping.delay
    requires t.q == Exec(s.q, TerminalCmd(k, o, now)).q && t.sweeps[n].started - cfg.skew - cfg.sweeping.time <= now
    ensures TakenBack(cfg, t, n, k.id)
  {
    hide Inv, Exec, Trimmed;
    var c := TerminalCmd(k, o, now);
    StepKeepsInv(s.q, cfg.name, c);
    if c.CArchive? {
      ExecArchive(s.q, c);
      ArchiveTarget(s.q, cfg.name, k, c.err, c.now, c.cutoff);
      if At(t.q, k.id, Archived) { OnlyPlace(t.q, cfg.name, k.id, Archived); }
    } else {
      WorkerTarget(s.q, cfg.name, c);
      OnlyPlace(t.q, cfg.name, k.id, Retry);
    }
  }

  lemma OnlyPlace(q: QueueState, name: string, id: string, st: TaskState)
    requires Inv(q, name) && At(q, id, st) && (st.Archived? || st.Retry?)
    ensures id !in q.active && id !in q.pending && id !in q.scheduled && (st.Archived? ==> id !in q.retry)
  {
    hide Inv;
    AtHolds(q, name, id, st);
    assert !At(q, id, Active) && !At(q, id, Pending) && !At(q, id, Scheduled);
    assert st.Archived? ==> !At(q, id, Retry);
  }

  lemma HarmlessAll(cfg: Config, s: Sys, a: Action)
    requires Tolerable(cfg) && SysInv(cfg, s) && Enabled(cfg, s, a)
    ensures SweepsHarmless(cfg, Step(s, a))
  {
    hide SysInv, Step, Enabled, Harmless, LeaseExpired, Tolerable;
    var t := Step(s, a);
    SweepsAfter(s, a);
    forall n, i | n in t.sweeps && 0 <= i < |t.sweeps[n].left| ensures Harmless(cfg, t, n, t.sweeps[n].left[i]) {
      if a.AList? && a.node == n {
        NewIsHarmless(cfg, s, a, t.sweeps[n].left[i]);
      } else {
        Remaining(cfg, s, a, n, i);
        HarmlessStep(cfg, s, a, n, t.sweeps[n].left[i]);
      }
    }
  }

  lemma NewIsHarmless(cfg: Config, s: Sys, a: Action, m: TaskMessage)
    requires Tolerable(cfg) && SysInv(cfg, s) && Enabled(cfg, s, a) && a.AList?
    requires m in LeaseExpired(s.q, Sec(a.at - 30 * SECOND))
    ensures a.node in Step(s, a).sweeps && Harmless(cfg, Step(s, a), a.node, m)
  {
    hide SysInv, Step, LeaseExpired, NobodyLive, Within, Exec, Live;
    Parts(cfg, s);
    ListHarmless(cfg, s, a.node, a.at, m);
    ListedState(s, a.node, a.at);
    SameLive(s, Step(s, a), m.id);
  }

  lemma SameLive(s: Sys, t: Sys, id: string)
    requires t.workers == s.workers && t.clock == s.clock && NobodyLive(s, id)
    ensures NobodyLive(t, id)
  {
    forall w | Live(t, w) ensures t.workers[w].m.id != id { assert Live(s, w); }
  }

  /** What is left on a list was there before, and a move takes its own task off. */
  lemma Remaining(cfg: Config, s: Sys, a: Action, n: string, i: nat)
    requires SysInv(cfg, s) && Enabled(cfg, s, a) && !(a.AList? && a.node == n)
    requires n in Step(s, a).sweeps && i < |Step(s, a).sweeps[n].left|
    ensures n in s.sweeps && Step(s, a).sweeps[n].started == s.sweeps[n].started
    ensures var m := Step(s, a).sweeps[n].left[i];
            m in s.sweeps[n].left && Harmless(cfg, s, n, m) && (a.AMove? && a.node == n ==> m != s.sweeps[n].left[0])
  {
    hide SysInv, Step, Harmless, LeaseExpired, Open, Exec, Within, LeasesBounded, BeatsBounded;
    Parts(cfg, s);
    SweepsAfter(s, a);
    var m := Step(s, a).sweeps[n].left[i];
    if (a.AMove? || a.ASkip?) && a.node == n {
      assert m == s.sweeps[n].left[i + 1];
    } else {
      assert m == s.sweeps[n].left[i];
    }
  }

  // ---------------------------------------------------------------- the theorem

  lemma StepKeepsFencing(cfg: Config, s: Sys, a: Action)
    requires Tolerable(cfg) && SysInv(cfg, s) && Enabled(cfg, s, a)
    ensures SysInv(cfg, Step(s, a))
  {
    hide Sound, Within, LeasesBounded, BeatsBounded, WorkersFenced, SweepsApart, SweepsHarmless, Step, Enabled, Tolerable;
    StepSound(cfg, s, a);
    WithinStep(cfg, s, a);
    LeasesStep(cfg, s, a);
    BeatsStep(cfg, s, a);
    WorkersStep(cfg, s, a);
    ApartStep(cfg, s, a);
    HarmlessAll(cfg, s, a);
  }

  /**
   The promise: every live worker owns the running attempt of its task, no other worker is live on
   it, its message is the stored one, and no recovery sweep may still move it.
   */
  ghost predicate Fenced(cfg: Config, s: Sys) {
    && (forall w | Live(s, w) :: Owns(s, w))
    && (forall v, w | Live(s, v) && Live(s, w) && s.workers[v].m.id == s.workers[w].m.id :: v == w)
    && (forall w, n, i | Live(s, w) && Open(cfg, s, n) && 0 <= i < |s.sweeps[n].left| :: s.sweeps[n].left[i].id != s.workers[w].m.id)
  }

  lemma InitSysInv(cfg: Config, s: Sys)
    requires Init(cfg, s)
    ensures SysInv(cfg, s)
  {
    InitInv(cfg.name);
  }

  lemma SysInvFenced(cfg: Config, s: Sys)
    requires SysInv(cfg, s)
    ensures Fenced(cfg, s)
  {
    hide Inv, SysInv, Live, Within, Sound;
    Parts(cfg, s);
    forall v, w | Live(s, v) && Live(s, w) && s.workers[v].m.id == s.workers[w].m.id ensures v == w {
      assert Guarded(cfg, s, v) && Guarded(cfg, s, w);
    }
    forall w, n, i | Live(s, w) && Open(cfg, s, n) && 0 <= i < |s.sweeps[n].left|
      ensures s.sweeps[n].left[i].id != s.workers[w].m.id
    {
      assert Harmless(cfg, s, n, s.sweeps[n].left[i]);
    }
  }

  lemma {:induction false} RunKeepsFencing(cfg: Config, s: Sys, run: seq<Action>)
    requires Tolerable(cfg) && SysInv(cfg, s) && Allowed(cfg, s, run)
    ensures SysInv(cfg, Run(s, run))
    decreases run
  {
    hide SysInv, Step, Enabled, Tolerable;
    if run != [] {
      StepKeepsFencing(cfg, s, run[0]);
      RunKeepsFencing(cfg, Step(s, run[0]), run[1..]);
    }
  }

  /** Every run from every initial state stays fenced. */
  ghost predicate Safe(cfg: Config) {
    forall s, run :: Init(cfg, s) && Allowed(cfg, s, run) ==> Fenced(cfg, Run(s, run))
  }

  lemma TolerableIsSafe(cfg: Config)
    requires Tolerable(cfg)
    ensures Safe(cfg)
  {
    hide SysInv, Step, Enabled, Fenced, Init, Allowed, Run;
    forall s, run | Init(cfg, s) && Allowed(cfg, s, run) ensures Fenced(cfg, Run(s, run)) {
      InitSysInv(cfg, s);
      RunKeepsFencing(cfg, s, run);
      SysInvFenced(cfg, Run(s, run));
    }
  }

  /** In a fenced run the score in Redis, rounded down as it is, still covers every live lease. */
  lemma ScoreCoversLease(cfg: Config, s0: Sys, run: seq<Action>, w: nat)
    requires Tolerable(cfg) && Init(cfg, s0) && Allowed(cfg, s0, run) && Live(Run(s0, run), w)
    ensures var s := Run(s0, run); var k := s.workers[w];
            k.m.id in s.q.lease && k.deadline - Slack(cfg) < (s.q.lease[k.m.id] + 1) * SECOND
  {
    hide Init, Allowed, Run;
    InitSysInv(cfg, s0);
    RunKeepsFencing(cfg, s0, run);
    var s := Run(s0, run);
    assert Guarded(cfg, s, w);
  }

  /**
   A last write that is in time always goes through, whatever its outcome: it ends this attempt, it
   leaves every other active task as it was, and nobody else is live on the task.
   */
  lemma FencedWriteLands(cfg: Config, s0: Sys, run: seq<Action>, w: nat, at: int)
    requires Tolerable(cfg) && Init(cfg, s0) && Allowed(cfg, s0, run)
    requires Live(Run(s0, run), w) && Run(s0, run).workers[w].write.Some?
    ensures var s := Run(s0, run); var m := s.workers[w].m; var t := Step(s, AWrite(w, at));
            && Exec(s.q, TerminalCmd(m, s.workers[w].write.value.o, at)).reply == Ok
            && m.id in s.q.active && m.id !in t.q.active && m.id !in t.q.lease
            && m.id in s.q.tasks && s.q.tasks[m.id].msg == Some(m)
            && (forall id | id in s.q.active && id != m.id :: Untouched(s.q, t.q, id))
            && NobodyLive(t, m.id)
  {
    hide Init, Allowed, Run, SysInv;
    InitSysInv(cfg, s0);
    RunKeepsFencing(cfg, s0, run);
    WriteLands(cfg, Run(s0, run), w, at);
  }

  lemma WriteLands(cfg: Config, s: Sys, w: nat, at: int)
    requires SysInv(cfg, s) && Live(s, w) && s.workers[w].write.Some?
    ensures var m := s.workers[w].m; var t := Step(s, AWrite(w, at));
            && Exec(s.q, TerminalCmd(m, s.workers[w].write.value.o, at)).reply == Ok
            && m.id in s.q.active && m.id !in t.q.active && m.id !in t.q.lease
            && m.id in s.q.tasks && s.q.tasks[m.id].msg == Some(m)
            && (forall id | id in s.q.active && id != m.id :: Untouched(s.q, t.q, id))
            && NobodyLive(t, m.id)
  {
    hide Exec, Inv, Untouched, SysInv, Step, TerminalCmd, Within, LeasesBounded, BeatsBounded, SweepsApart, SweepsHarmless;
    Parts(cfg, s);
    var m, o := s.workers[w].m, s.workers[w].write.value.o;
    WrittenState(s, w, at);
    assert Guarded(cfg, s, w);
    AttemptEnded(s.q, cfg.name, m, o, at);
    forall id | id in s.q.active && id != m.id ensures Untouched(s.q, Step(s, AWrite(w, at)).q, id) {
      TerminalFrame(s.q, cfg.name, m, o, at, id);
    }
    forall v | Live(s, v) && v != w ensures s.workers[v].m.id != m.id { assert Guarded(cfg, s, v); }
  }

  lemma AttemptEnded(q: QueueState, name: string, m: TaskMessage, o: Outcome, now: int)
    requires Inv(q, name) && m.queue == name && m.id in q.active
    ensures var out := Exec(q, TerminalCmd(m, o, now));
            out.reply == Ok && m.id !in out.q.active && m.id !in out.q.lease
  {
    hide Inv, Exec, Trimmed;
    var c := TerminalCmd(m, o, now);
    AllOrNothing(q, name, c);
    if c.CArchive? {
      ExecArchive(q, c);
      ArchiveTarget(q, name, m, c.err, now, c.cutoff);
    } else {
      WorkerTarget(q, name, c);
    }
  }
}
