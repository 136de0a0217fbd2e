/** A recovery sweep (recoverer.go): list the tasks with an old lease, then end each attempt. */
module Recovery {
  import opened Base
  import opened SortedSets
  import opened Queues
  import opened Invariant
  import opened Effects
  import opened Archiving
  import opened Protocol
  import opened Broker

  /** Configured delay function, verdict on ErrLeaseExpired, and the archive's age limit. */
  datatype Policy = Policy(delay: TaskMessage -> int, isFailure: bool, cutoff: int)

  const LEASE_EXPIRED := "titanqueue: task lease expired"

  function Verdict(m: TaskMessage, p: Policy): Outcome {
    Failed(LEASE_EXPIRED, false, p.isFailure, p.delay(m), p.cutoff)
  }

  /** The sweep as a fold of the moves that the protocol makes one by one. */
  function Swept(q: QueueState, msgs: seq<TaskMessage>, now: int, p: Policy): QueueState
    decreases msgs
  {
    if msgs == [] then q
    else Swept(Exec(q, TerminalCmd(msgs[0], Verdict(msgs[0], p), now)).q, msgs[1..], now, p)
  }

  /** A whole pass over a queue. */
  function Pass(q: QueueState, now: int, p: Policy): QueueState {
    Swept(q, LeaseExpired(q, Sec(now - 30 * SECOND)), now, p)
  }

  ghost predicate Listed(q: QueueState, name: string, msgs: seq<TaskMessage>) {
    && (forall i | 0 <= i < |msgs| :: msgs[i].queue == name && msgs[i].id in q.active)
    && (forall i, j | 0 <= i < j < |msgs| :: msgs[i].id != msgs[j].id)
  }

  /** The trimming of the archive leaves no room for an entry of this moment. */
  ghost predicate Crowded(q: QueueState, now: int, p: Policy) {
    || Sec(now) <= p.cutoff
    || (|q.archived| >= ARCHIVE_BOUND && forall x | x in q.archived :: q.archived[x] >= Sec(now))
  }

  /** In the archive with its failure recorded, or trimmed from it. */
  ghost predicate Retired(q: QueueState, m: TaskMessage, now: int, p: Policy) {
    || (&& At(q, m.id, Archived) && q.archived[m.id] == Sec(now)
        && m.id in q.tasks && q.tasks[m.id].msg.Some? && Records(q.tasks[m.id].msg.value, m, LEASE_EXPIRED, false, now))
    || (!Placed(q, m.id) && Crowded(q, now, p))
  }

  /** Where a swept task ends: in retry with its failure recorded, or gone through Archive. */
  ghost predicate Settled(q: QueueState, m: TaskMessage, now: int, p: Policy) {
    && m.id !in q.active && m.id !in q.lease
    && (m.retried < m.retry ==> At(q, m.id, Retry) && q.retry[m.id] == Sec(now + p.delay(m)))
    && (m.retried < m.retry ==>
          m.id in q.tasks && q.tasks[m.id].msg.Some? && Records(q.tasks[m.id].msg.value, m, LEASE_EXPIRED, p.isFailure, now))
    && (m.retried >= m.retry ==> Retired(q, m, now, p))
  }

  lemma MoveSettles(q: QueueState, name: string, m: TaskMessage, now: int, p: Policy)
    requires Inv(q, name) && m.queue == name && m.id in q.active
    ensures Settled(Exec(q, TerminalCmd(m, Verdict(m, p), now)).q, m, now, p)
  {
    hide Inv, Exec, Trimmed, Crowded, Placed;
    var c := TerminalCmd(m, Verdict(m, p), now);
    if c.CArchive? {
      ExecArchive(q, c);
      ArchiveTarget(q, name, m, c.err, now, c.cutoff);
      if m.id in Trimmed(q.archived[m.id := Sec(now)], p.cutoff) { TrimmedIsCrowded(q, name, m, m.id, now, p); }
    } else {
      WorkerTarget(q, name, c);
    }
  }

  /** What Archive trims for an entry of this moment, it would trim again. */
  lemma TrimmedIsCrowded(q: QueueState, name: string, m: TaskMessage, id: string, now: int, p: Policy)
    requires Inv(q, name) && m.queue == name && m.id in q.active
    requires var z := q.archived[m.id := Sec(now)]; id in Trimmed(z, p.cutoff) && z[id] == Sec(now)
    ensures Crowded(Archive(q, m, LEASE_EXPIRED, now, p.cutoff).q, now, p)
  {
    hide Inv, Trimmed, Stale, Archive, Lex;
    var z := q.archived[m.id := Sec(now)];
    TrimKeepsTheHighest(z, p.cutoff);
    ArchivedSet(q, name, m, LEASE_EXPIRED, now, p.cutoff);
    var q' := Archive(q, m, LEASE_EXPIRED, now, p.cutoff).q;
    forall x | x in q'.archived ensures q'.archived[x] >= Sec(now) { assert Before(z, id, x); }
  }

  lemma StaysCrowded(q: QueueState, name: string, m: TaskMessage, now: int, p: Policy)
    requires Inv(q, name) && m.queue == name && m.id in q.active && Crowded(q, now, p)
    ensures Crowded(Archive(q, m, LEASE_EXPIRED, now, p.cutoff).q, now, p)
  {
    hide Inv, Trimmed, Archive, Lex;
    if Sec(now) > p.cutoff {
      AtHolds(q, name, m.id, Active);
      assert !At(q, m.id, Archived);
      var z := q.archived[m.id := Sec(now)];
      assert z - Stale(z, p.cutoff) == z;
      TrimKeepsTheHighest(z, p.cutoff);
      ArchivedSet(q, name, m, LEASE_EXPIRED, now, p.cutoff);
    }
  }

  lemma RetryLeavesArchive(q: QueueState, name: string, c: Cmd, now: int, p: Policy)
    requires Inv(q, name) && Addressed(name, c) && c.CRetry? && Crowded(q, now, p)
    ensures Crowded(Exec(q, c).q, now, p)
  {
    hide Inv, Exec;
    ArchiveUntouched(q, name, c);
  }

  /** A move of one task keeps another one settled: only archived entries can be trimmed away. */
  lemma MoveKeepsSettled(q: QueueState, name: string, m: TaskMessage, o: TaskMessage, now: int, p: Policy)
    requires Inv(q, name) && m.queue == name && m.id in q.active && o.id != m.id && Settled(q, o, now, p)
    ensures Settled(Exec(q, TerminalCmd(m, Verdict(m, p), now)).q, o, now, p)
  {
    hide Inv, Exec, Trimmed, Crowded, Settled, Touches;
    var c := TerminalCmd(m, Verdict(m, p), now);
    if Touches(q, c, o.id) {
      TrimmedStaysSettled(q, name, m, o, now, p);
    } else {
      StepFrame(q, c, o.id);
      if Crowded(q, now, p) {
        if c.CArchive? { ExecArchive(q, c); StaysCrowded(q, name, m, now, p); } else { RetryLeavesArchive(q, name, c, now, p); }
      }
      SettledFrame(q, Exec(q, c).q, o, now, p);
    }
  }

  lemma SettledFrame(q: QueueState, q': QueueState, o: TaskMessage, now: int, p: Policy)
    requires Settled(q, o, now, p) && Untouched(q, q', o.id) && (Crowded(q, now, p) ==> Crowded(q', now, p))
    ensures Settled(q', o, now, p)
  {
    hide Crowded;
  }

  /** A settled task that the move touches is one that Archive trims. */
  lemma TrimmedStaysSettled(q: QueueState, name: string, m: TaskMessage, o: TaskMessage, now: int, p: Policy)
    requires Inv(q, name) && m.queue == name && m.id in q.active && o.id != m.id && Settled(q, o, now, p)
    requires Touches(q, TerminalCmd(m, Verdict(m, p), now), o.id)
    ensures Settled(Exec(q, TerminalCmd(m, Verdict(m, p), now)).q, o, now, p)
  {
    hide Inv, Exec, Trimmed, Crowded, Placed;
    var c := TerminalCmd(m, Verdict(m, p), now);
    var q' := Exec(q, c).q;
    ExecArchive(q, c);
    ArchiveTarget(q, name, m, c.err, now, c.cutoff);
    AtHolds(q, name, o.id, Archived);
    assert !At(q, o.id, Retry);
    TrimmedIsCrowded(q, name, m, o.id, now, p);
    StepKeepsInv(q, name, c);
    Leased(q', name, o.id);
    UnplacedInactive(q', o.id);
  }

  lemma UnplacedInactive(q: QueueState, id: string)
    requires !Placed(q, id)
    ensures id !in q.active
  {
  }

  lemma Leased(q: QueueState, name: string, id: string)
    requires Inv(q, name)
    ensures id in q.lease <==> id in q.active
  {
    assert id in Elems(q.active) <==> id in q.active;
  }

  lemma {:induction false} SweepKeepsSettled(q: QueueState, name: string, msgs: seq<TaskMessage>, o: TaskMessage, now: int, p: Policy)
    requires Inv(q, name) && Listed(q, name, msgs) && Settled(q, o, now, p)
    requires forall i | 0 <= i < |msgs| :: msgs[i].id != o.id
    ensures Settled(Swept(q, msgs, now, p), o, now, p)
    decreases msgs
  {
    hide Inv, Exec, Settled, TerminalCmd;
    if msgs != [] {
      MoveKeepsSettled(q, name, msgs[0], o, now, p);
      MoveKeepsListed(q, name, msgs, now, p);
      SweepKeepsSettled(Exec(q, TerminalCmd(msgs[0], Verdict(msgs[0], p), now)).q, name, msgs[1..], o, now, p);
    }
  }

  /** Moving the first listed task leaves the rest of the list active. */
  lemma MoveKeepsListed(q: QueueState, name: string, msgs: seq<TaskMessage>, now: int, p: Policy)
    requires Inv(q, name) && msgs != [] && Listed(q, name, msgs)
    ensures var q' := Exec(q, TerminalCmd(msgs[0], Verdict(msgs[0], p), now)).q;
            Inv(q', name) && Listed(q', name, msgs[1..])
  {
    hide Inv, Exec, TerminalCmd;
    TerminalAddressed(name, msgs[0], Verdict(msgs[0], p), now);
    StepKeepsInv(q, name, TerminalCmd(msgs[0], Verdict(msgs[0], p), now));
    forall i | 0 <= i < |msgs[1..]|
      ensures msgs[1..][i].id in Exec(q, TerminalCmd(msgs[0], Verdict(msgs[0], p), now)).q.active
    {
      ActiveFrame(q, name, msgs[0], now, p, msgs[i + 1].id);
    }
  }

  lemma ActiveFrame(q: QueueState, name: string, m: TaskMessage, now: int, p: Policy, id: string)
    requires Inv(q, name) && m.queue == name && m.id in q.active && id in q.active && id != m.id
    ensures Untouched(q, Exec(q, TerminalCmd(m, Verdict(m, p), now)).q, id)
  {
    hide Inv, Exec, Trimmed;
    AtHolds(q, name, id, Active);
    assert !At(q, id, Archived);
    StepFrame(q, TerminalCmd(m, Verdict(m, p), now), id);
  }

  /** A sweep over a list settles every listed task and touches no other active one. */
  lemma {:induction false} SweepSettles(q: QueueState, name: string, msgs: seq<TaskMessage>, now: int, p: Policy)
    requires Inv(q, name) && Listed(q, name, msgs)
    ensures var q' := Swept(q, msgs, now, p);
            && Inv(q', name)
            && (forall i | 0 <= i < |msgs| :: Settled(q', msgs[i], now, p))
            && (forall id | id in q.active && (forall i | 0 <= i < |msgs| :: msgs[i].id != id) :: Untouched(q, q', id))
            && (forall id | id in q'.active :: id in q.active)
    decreases msgs
  {
    hide Inv, Exec, Settled, TerminalCmd, Untouched;
    if msgs == [] {
      forall id ensures Untouched(q, q, id) { UntouchedSame(q, id); }
    } else {
      var q1 := Exec(q, TerminalCmd(msgs[0], Verdict(msgs[0], p), now)).q;
      var rest := msgs[1..];
      MoveKeepsListed(q, name, msgs, now, p);
      SweepSettles(q1, name, rest, now, p);
      MoveSettles(q, name, msgs[0], now, p);
      SweepKeepsSettled(q1, name, rest, msgs[0], now, p);
      var q' := Swept(q1, rest, now, p);
      forall i | 0 <= i < |msgs| ensures Settled(q', msgs[i], now, p) {
        if i > 0 { assert msgs[i] == rest[i - 1]; }
      }
      forall id | id in q.active && (forall i | 0 <= i < |msgs| :: msgs[i].id != id) ensures Untouched(q, q', id) {
        ActiveFrame(q, name, msgs[0], now, p, id);
        UntouchedActive(q, q1, id);
        assert forall i | 0 <= i < |rest| :: rest[i].id == msgs[i + 1].id != id;
        UntouchedTwice(q, q1, q', id);
      }
      forall id | id in q'.active ensures id in q.active {
        StillActive(q, name, msgs[0], now, p, id);
      }
    }
  }

  lemma UntouchedSame(q: QueueState, id: string)
    ensures Untouched(q, q, id)
  {
  }

  lemma UntouchedActive(q: QueueState, q': QueueState, id: string)
    requires Untouched(q, q', id) && id in q.active
    ensures id in q'.active
  {
  }

  lemma UntouchedTwice(a: QueueState, b: QueueState, c: QueueState, id: string)
    requires Untouched(a, b, id) && Untouched(b, c, id)
    ensures Untouched(a, c, id)
  {
  }

  lemma StillActive(q: QueueState, name: string, m: TaskMessage, now: int, p: Policy, id: string)
    requires Inv(q, name) && m.queue == name && m.id in q.active
    ensures id in Exec(q, TerminalCmd(m, Verdict(m, p), now)).q.active ==> id in q.active
  {
    hide Inv, LRem, Trimmed, SetMsgState;
  }

  /**
   After a sweep at time t no lease is older than t - 30 s, every task that had such a lease is in
   retry if it had a retry left and has gone through Archive otherwise, and every other active
   task is exactly as before.
   */
  lemma SweepIsComplete(q: QueueState, name: string, now: int, p: Policy)
    requires Inv(q, name)
    ensures var cutoff := Sec(now - 30 * SECOND);
            var q' := Pass(q, now, p);
            && Inv(q', name)
            && (forall id | id in q'.lease :: q'.lease[id] > cutoff)
            && (forall id | id in q.lease && q.lease[id] <= cutoff ::
                  id in q.tasks && q.tasks[id].msg.Some? && Settled(q', q.tasks[id].msg.value, now, p))
            && (forall id | id in q.active && id in q.lease && q.lease[id] > cutoff :: Untouched(q, q', id))
  {
    hide Inv, Exec, Settled, TerminalCmd, LeaseExpired, Sec;
    var cutoff := Sec(now - 30 * SECOND);
    var msgs := LeaseExpired(q, cutoff);
    ListedMessages(q, name, cutoff);
    SweepSettles(q, name, msgs, now, p);
    var q' := Swept(q, msgs, now, p);
    forall id | id in q.lease && q.lease[id] <= cutoff
      ensures id in q.tasks && q.tasks[id].msg.Some? && Settled(q', q.tasks[id].msg.value, now, p)
    {
      var i :| 0 <= i < |msgs| && msgs[i].id == id;
    }
    forall id | id in q'.lease ensures q'.lease[id] > cutoff {
      Leased(q', name, id);
      Leased(q, name, id);
      if q.lease[id] <= cutoff {
        var i :| 0 <= i < |msgs| && msgs[i].id == id;
        SettledInactive(q', msgs[i], now, p);
        assert false;
      }
    }
  }

  lemma SettledInactive(q: QueueState, m: TaskMessage, now: int, p: Policy)
    requires Settled(q, m, now, p)
    ensures m.id !in q.active
  {
  }

  class Recoverer {
    const policy: Policy

    constructor (policy: Policy)
      ensures this.policy == policy
    {
      this.policy := policy;
    }

    /** One pass over the queues: list them all, then retry or archive each listed task. */
    method RecoverLeaseExpiredTasks(rdb: RDB, qnames: seq<string>, now: int)
      requires rdb.Valid() && NoDup(qnames) && forall i | 0 <= i < |qnames| :: qnames[i] in rdb.queues
      modifies rdb.queues.Values
      ensures rdb.Valid()
      ensures forall n | n in rdb.queues && n in qnames :: rdb.queues[n].View() == Pass(old(rdb.queues[n].View()), now, policy)
      ensures forall n | n in rdb.queues && n !in qnames :: rdb.queues[n].View() == old(rdb.queues[n].View())
    {
      hide Inv, Exec, LeaseExpired, Swept, Lists, Of, Sent, Pass, RDB.Valid;
      ghost var v := rdb.Views();
      var msgs := rdb.ListLeaseExpired(Sec(now - 30 * SECOND), qnames);
      SentAll(v, msgs, now, policy);
      for i := 0 to |msgs|
        invariant rdb.Valid() && Sent(v, rdb.Views(), msgs, msgs[i..], now, policy)
      {
        MessageOf(v, msgs, qnames, Sec(now - 30 * SECOND), i);
        SentOne(v, rdb.Views(), msgs, msgs[i..], now, policy);
        assert msgs[i..][0] == msgs[i] && msgs[i..][1..] == msgs[i + 1..];
        RecoverIn(rdb, msgs[i], now);
      }
      assert msgs[|msgs|..] == [];
      AllSent(v, rdb.Views(), msgs, qnames, now, policy);
      assert forall n | n in rdb.queues :: rdb.queues[n].View() == rdb.Views()[n];
    }

    method RecoverIn(rdb: RDB, m: TaskMessage, now: int)
      requires rdb.Valid() && m.queue in rdb.queues
      modifies rdb.queues[m.queue]
      ensures rdb.Valid() && rdb.Views() == old(Moved(rdb.Views(), m, now, policy))
    {
      hide Inv, Exec, TerminalCmd, RDB.Valid, RedisQueue.Valid, RDB.Views;
      rdb.Member(m.queue);
      RecoverOne(rdb.queues[m.queue], m, now);
      rdb.OneChanged(m.queue);
    }

    /** The body of the loop. */
    method RecoverOne(broker: RedisQueue, m: TaskMessage, now: int)
      requires broker.Valid() && m.queue == broker.name
      modifies broker
      ensures broker.Valid() && broker.View() == old(Exec(broker.View(), TerminalCmd(m, Verdict(m, policy), now)).q)
    {
      hide Inv, Exec, TerminalCmd;
      RecoverCmd(m, now, policy);
      if m.retried >= m.retry {
        var r := broker.Archive(m, LEASE_EXPIRED, now, policy.cutoff);
      } else {
        var retryAt := now + policy.delay(m);
        var r := broker.Retry(m, Sec(retryAt), LEASE_EXPIRED, policy.isFailure, now);
      }
    }
  }

  /** One message is moved in its queue. */
  function Moved(v: map<string, QueueState>, m: TaskMessage, now: int, p: Policy): map<string, QueueState>
    requires m.queue in v
  {
    v[m.queue := Exec(v[m.queue], TerminalCmd(m, Verdict(m, p), now)).q]
  }

  /** From the queues v, working off `msgs`, the pass has come to w and has `rest` to go. */
  ghost predicate Sent(v: map<string, QueueState>, w: map<string, QueueState>, msgs: seq<TaskMessage>, rest: seq<TaskMessage>, now: int, p: Policy) {
    && w.Keys == v.Keys
    && forall n | n in v :: Swept(w[n], Of(rest, n), now, p) == Swept(v[n], Of(msgs, n), now, p)
  }

  lemma SentAll(v: map<string, QueueState>, msgs: seq<TaskMessage>, now: int, p: Policy)
    ensures Sent(v, v, msgs, msgs[0..], now, p)
  {
    hide Swept;
    assert msgs[0..] == msgs;
  }

  lemma SentOne(v: map<string, QueueState>, w: map<string, QueueState>, msgs: seq<TaskMessage>, rest: seq<TaskMessage>, now: int, p: Policy)
    requires Sent(v, w, msgs, rest, now, p) && rest != [] && rest[0].queue in w
    ensures Sent(v, Moved(w, rest[0], now, p), msgs, rest[1..], now, p)
  {
    hide Exec, TerminalCmd;
    var m := rest[0];
    var w' := Moved(w, m, now, p);
    forall n | n in v ensures Swept(w'[n], Of(rest[1..], n), now, p) == Swept(w[n], Of(rest, n), now, p) {
      if n == m.queue {
        assert Of(rest, n) == [m] + Of(rest[1..], n);
        assert Of(rest, n)[0] == m && Of(rest, n)[1..] == Of(rest[1..], n);
      } else {
        assert Of(rest, n) == [] + Of(rest[1..], n) == Of(rest[1..], n);
      }
    }
  }

  lemma AllSent(v: map<string, QueueState>, w: map<string, QueueState>, msgs: seq<TaskMessage>, qnames: seq<string>, now: int, p: Policy)
    requires Sent(v, w, msgs, [], now, p) && Lists(msgs, v, qnames, Sec(now - 30 * SECOND))
    ensures forall n | n in v :: w[n] == if n in qnames then Pass(v[n], now, p) else v[n]
  {
    hide Exec, TerminalCmd, LeaseExpired;
  }

  lemma MessageOf(v: map<string, QueueState>, msgs: seq<TaskMessage>, qnames: seq<string>, cutoff: int, i: nat)
    requires Lists(msgs, v, qnames, cutoff) && i < |msgs|
    ensures msgs[i].queue in qnames
  {
    hide LeaseExpired, Of;
  }

  // ---------------------------------------------------------------- a pass in the protocol

  /** The actions that work off a list. */
  function Moves(node: string, msgs: seq<TaskMessage>, p: Policy, now: int): seq<Action> {
    if msgs == [] then [] else [AMove(node, Verdict(msgs[0], p), now)] + Moves(node, msgs[1..], p, now)
  }

  /** The configured delays are as long as timed sweeps rely on. */
  ghost predicate Suits(cfg: Config, p: Policy) {
    cfg.sweeping.Timed? ==> 0 <= cfg.sweeping.time && forall m :: p.delay(m) >= cfg.sweeping.delay
  }

  lemma {:induction false} MovesAreSweep(cfg: Config, s: Sys, node: string, p: Policy)
    requires Open(cfg, s, node) && Suits(cfg, p) && s.sweeps[node].started <= s.clock[node]
    ensures var run := Moves(node, s.sweeps[node].left, p, s.clock[node]);
            Allowed(cfg, s, run) && Run(s, run).q == Swept(s.q, s.sweeps[node].left, s.clock[node], p)
    decreases |s.sweeps[node].left|
  {
    hide Exec, TerminalCmd, Step;
    var msgs := s.sweeps[node].left;
    if msgs != [] {
      var a := AMove(node, Verdict(msgs[0], p), s.clock[node]);
      MovedState(s, node, Verdict(msgs[0], p), s.clock[node]);
      MovesAreSweep(cfg, Step(s, a), node, p);
      RunFirst(cfg, s, a, Moves(node, msgs[1..], p, s.clock[node]));
    }
  }

  /**
   Wherever a recoverer may list, its pass is a run that the protocol allows, one AList and an AMove
   for each listed task, and has the effect of the sweep.
   */
  lemma PassIsProtocolRun(cfg: Config, s: Sys, node: string, p: Policy)
    requires node in s.clock && Enabled(cfg, s, AList(node, s.clock[node])) && Suits(cfg, p)
    ensures var msgs := LeaseExpired(s.q, Sec(s.clock[node] - 30 * SECOND));
            var run := [AList(node, s.clock[node])] + Moves(node, msgs, p, s.clock[node]);
            Allowed(cfg, s, run) && Run(s, run).q == Pass(s.q, s.clock[node], p)
  {
    hide Exec, LeaseExpired, Moves, Step, Enabled, Run, Allowed;
    var a := AList(node, s.clock[node]);
    var msgs := LeaseExpired(s.q, Sec(s.clock[node] - 30 * SECOND));
    ListedState(s, node, s.clock[node]);
    MovesAreSweep(cfg, Step(s, a), node, p);
    RunFirst(cfg, s, a, Moves(node, msgs, p, s.clock[node]));
  }

  lemma RecoverCmd(m: TaskMessage, now: int, p: Policy)
    ensures TerminalCmd(m, Verdict(m, p), now) ==
            if m.retried >= m.retry then CArchive(m, LEASE_EXPIRED, now, p.cutoff)
            else CRetry(m, Sec(now + p.delay(m)), LEASE_EXPIRED, p.isFailure, now)
  {
  }
}
