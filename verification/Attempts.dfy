/**
 Message integrity and bounded attempts: through every fenced run a task stays the one that the
 client asked for, its retry count is the number of counted failures, and it never exceeds the limit.
 */
module Attempts {
  import opened Base
  import opened Queues
  import opened Invariant
  import opened Effects
  import opened Protocol
  import opened Fencing

  /** The message is the client's task, with as many retries as failures were counted, and shows the last failure. */
  predicate Recorded(l: Ledger, m: TaskMessage) {
    && SameTask(m, l.original) && m.retried == l.failures && 0 <= m.retried <= m.retry
    && m.errorMsg == (if l.last.Some? then l.last.value.err else l.original.errorMsg)
    && m.lastFailedAt == (if l.last.Some? then l.last.value.second else l.original.lastFailedAt)
  }

  ghost predicate Entry(q: QueueState, ledger: map<string, Ledger>, id: string) {
    id in ledger && id in q.tasks && q.tasks[id].msg.Some? && Recorded(ledger[id], q.tasks[id].msg.value)
  }

  ghost predicate Faithful(s: Sys) {
    forall id | Placed(s.q, id) :: Entry(s.q, s.ledger, id)
  }

  lemma EntryFrame(q: QueueState, ledger: map<string, Ledger>, q': QueueState, ledger': map<string, Ledger>, id: string)
    requires Untouched(q, q', id) && (Placed(q, id) ==> Entry(q, ledger, id))
    requires id in ledger ==> id in ledger' && ledger'[id] == ledger[id]
    ensures Placed(q', id) ==> Entry(q', ledger', id)
  {
  }

  /** Ending an attempt keeps the record of the task, and charges exactly a counted failure. */
  lemma TerminalRecord(q: QueueState, name: string, ledger: map<string, Ledger>, m: TaskMessage, o: Outcome, now: int)
    requires Inv(q, name) && m.queue == name && m.id in q.active
    requires Entry(q, ledger, m.id) && q.tasks[m.id].msg == Some(m)
    ensures var c := TerminalCmd(m, o, now); var out := Exec(q, c);
            Placed(out.q, m.id) ==> Entry(out.q, Charge(ledger, c, out.reply), m.id)
  {
    hide Inv, Exec, Trimmed;
    var c := TerminalCmd(m, o, now);
    AllOrNothing(q, name, c);
    AtHolds(q, name, m.id, Active);
    if c.CArchive? {
      ExecArchive(q, c);
      ArchiveTarget(q, name, m, c.err, now, c.cutoff);
    } else {
      WorkerTarget(q, name, c);
    }
  }

  lemma TerminalOthers(q: QueueState, name: string, ledger: map<string, Ledger>, m: TaskMessage, o: Outcome, now: int, id: string)
    requires Inv(q, name) && m.queue == name && m.id in q.active && id != m.id
    requires Placed(q, id) ==> Entry(q, ledger, id)
    ensures var c := TerminalCmd(m, o, now); var out := Exec(q, c);
            Placed(out.q, id) ==> Entry(out.q, Charge(ledger, c, out.reply), id)
  {
    hide Inv, Exec, Trimmed, Entry, Placed, Untouched, Charge;
    var c := TerminalCmd(m, o, now);
    var out := Exec(q, c);
    if Touches(q, c, id) {
      ExecArchive(q, c);
      ArchiveTarget(q, name, m, c.err, now, c.cutoff);
    } else {
      StepFrame(q, c, id);
      ChargeOthers(ledger, c, out.reply, id);
      EntryFrame(q, ledger, out.q, Charge(ledger, c, out.reply), id);
    }
  }

  lemma ChargeOthers(ledger: map<string, Ledger>, c: Cmd, reply: Reply, id: string)
    requires EndsAttempt(c) && c.m.id != id
    ensures var l := Charge(ledger, c, reply); id in ledger ==> id in l && l[id] == ledger[id]
  {
  }

  lemma TerminalFaithful(q: QueueState, name: string, ledger: map<string, Ledger>, m: TaskMessage, o: Outcome, now: int)
    requires Inv(q, name) && m.queue == name && m.id in q.active && m.id in q.tasks && q.tasks[m.id].msg == Some(m)
    requires forall id | Placed(q, id) :: Entry(q, ledger, id)
    ensures var c := TerminalCmd(m, o, now); var out := Exec(q, c);
            forall id | Placed(out.q, id) :: Entry(out.q, Charge(ledger, c, out.reply), id)
  {
    hide Inv, Exec, Entry, TerminalCmd, Charge;
    var c := TerminalCmd(m, o, now);
    var out := Exec(q, c);
    forall id | Placed(out.q, id) ensures Entry(out.q, Charge(ledger, c, out.reply), id) {
      if id == m.id {
        assert Placed(q, id);
        TerminalRecord(q, name, ledger, m, o, now);
      } else {
        TerminalOthers(q, name, ledger, m, o, now, id);
      }
    }
  }

  lemma ClientFaithful(cfg: Config, s: Sys, c: Cmd)
    requires Sound(cfg, s) && Faithful(s) && FreshMessage(cfg, c)
    ensures Faithful(Step(s, AClient(c)))
  {
    hide Inv, Exec, Entry, Untouched, Step, Placed;
    var t := Step(s, AClient(c));
    ClientTarget(s.q, cfg.name, c);
    ClientStep(s, c);
    forall id | Placed(t.q, id) ensures Entry(t.q, t.ledger, id) {
      if id == c.m.id && Exec(s.q, c).reply == Ok {
        FreshEntry(t.q, t.ledger, c.m);
      } else {
        if id == c.m.id { OnlyLocks(s.q, t.q, id); } else { StepFrame(s.q, c, id); }
        EntryFrame(s.q, s.ledger, t.q, t.ledger, id);
      }
    }
  }

  lemma ClientStep(s: Sys, c: Cmd)
    requires Submits(c)
    ensures var t := Step(s, AClient(c));
            && t.q == Exec(s.q, c).q
            && t.ledger == if Exec(s.q, c).reply == Ok then s.ledger[c.m.id := Ledger(c.m, 0, None)] else s.ledger
  {
    hide Exec, NextWorkers, NextBeats, NextSweeps, NextOwner;
  }

  lemma FreshEntry(q: QueueState, ledger: map<string, Ledger>, m: TaskMessage)
    requires m.id in q.tasks && q.tasks[m.id].msg == Some(m) && m.id in ledger && ledger[m.id] == Ledger(m, 0, None)
    requires m.retried == 0 <= m.retry
    ensures Entry(q, ledger, m.id)
  {
  }

  /** The other broker calls neither place tasks nor rewrite messages. */
  lemma CarryFaithful(q: QueueState, name: string, ledger: map<string, Ledger>, c: Cmd)
    requires c.CDequeue? || c.CForward? || c.CDeleteExpired? || c.CListExpired? || c.CExtendLease? || c.CWriteResult? || c.CPause?
    requires Inv(q, name) && forall id | Placed(q, id) :: Entry(q, ledger, id)
    ensures var q' := Exec(q, c).q; forall id | Placed(q', id) :: Entry(q', ledger, id)
  {
    hide Inv, Exec, Entry, ReadyIds, ExpiredIds;
    var q' := Exec(q, c).q;
    forall id | Placed(q', id) ensures Entry(q', ledger, id) {
      if Touches(q, c, id) {
        CarryTouched(q, name, ledger, c, id);
      } else {
        StepFrame(q, c, id);
        EntryFrame(q, ledger, q', ledger, id);
      }
    }
  }

  lemma CarryTouched(q: QueueState, name: string, ledger: map<string, Ledger>, c: Cmd, id: string)
    requires c.CDequeue? || c.CForward? || c.CDeleteExpired? || c.CListExpired? || c.CExtendLease? || c.CWriteResult? || c.CPause?
    requires Inv(q, name) && (Placed(q, id) ==> Entry(q, ledger, id)) && Touches(q, c, id)
    ensures Placed(Exec(q, c).q, id) ==> Entry(Exec(q, c).q, ledger, id)
  {
    hide Inv, ReadyIds, ExpiredIds, Forward, DeleteExpired;
    match c
    case CForward(src, now) => ForwardTarget(q, name, src, now, FORWARD_BATCH, id);
    case CDeleteExpired(now, batch) => DeleteExpiredTarget(q, name, now, batch, id);
    case CDequeue(now) => DequeueDelivers(q, name, Sec(now + LEASE_DURATION));
    case _ =>
  }

  lemma StepFaithful(cfg: Config, s: Sys, a: Action)
    requires SysInv(cfg, s) && Faithful(s) && Enabled(cfg, s, a)
    ensures Faithful(Step(s, a))
  {
    hide Inv, Exec, Entry, TerminalCmd, Charge, Within, SysInv, NextWorkers, NextBeats, NextSweeps, NextOwner;
    Parts(cfg, s);
    match a
    case AClient(c) => ClientFaithful(cfg, s, c);
    case AWrite(wid, at) =>
      if Live(s, wid) {
        assert Guarded(cfg, s, wid);
        TerminalFaithful(s.q, cfg.name, s.ledger, s.workers[wid].m, s.workers[wid].write.value.o, at);
      }
    case AMove(_, _, _) => MoveFaithful(cfg, s, a);
    case _ => QuietFaithful(cfg, s, a);
  }

  lemma QuietFaithful(cfg: Config, s: Sys, a: Action)
    requires SysInv(cfg, s) && Faithful(s) && Enabled(cfg, s, a) && !(a.AClient? || a.AWrite? || a.AMove?)
    ensures Faithful(Step(s, a))
  {
    hide SysInv, Exec, Entry, Within, Enabled, LeaseValid, NextWorkers, NextBeats, NextSweeps, NextOwner;
    Parts(cfg, s);
    if CmdOf(s, a).Some? { CarryFaithful(s.q, cfg.name, s.ledger, CmdOf(s, a).value); }
  }

  /** A recoverer moves a task that is as listed, or one that another has moved already, to no effect. */
  lemma MoveFaithful(cfg: Config, s: Sys, a: Action)
    requires SysInv(cfg, s) && Faithful(s) && Enabled(cfg, s, a) && a.AMove?
    ensures Faithful(Step(s, a))
  {
    hide Inv, Exec, Entry, TerminalCmd, Within, SysInv, NextWorkers, NextBeats, NextSweeps, NextOwner;
    Parts(cfg, s);
    var m := s.sweeps[a.node].left[0];
    assert Harmless(cfg, s, a.node, m);
    if m.id in s.q.active {
      TerminalFaithful(s.q, cfg.name, s.ledger, m, a.o, a.at);
    } else {
      TerminalAddressed(cfg.name, m, a.o, a.at);
      AllOrNothing(s.q, cfg.name, TerminalCmd(m, a.o, a.at));
    }
  }

  lemma {:induction false} RunFaithful(cfg: Config, s: Sys, run: seq<Action>)
    requires Tolerable(cfg) && SysInv(cfg, s) && Faithful(s) && Allowed(cfg, s, run)
    ensures SysInv(cfg, Run(s, run)) && Faithful(Run(s, run))
    decreases run
  {
    hide SysInv, Faithful, Step, Enabled;
    if run != [] {
      StepKeepsFencing(cfg, s, run[0]);
      StepFaithful(cfg, s, run[0]);
      RunFaithful(cfg, Step(s, run[0]), run[1..]);
    }
  }

  /**
   In every reachable state of a tolerable configuration, each placed task is the client's own,
   with 0 <= Retried <= Retry, Retried equal to its counted failures, and the error and time of its
   last failed attempt; and a live worker holds exactly that message, so its next failure is retried if and only if a retry is left.
   */
  lemma AttemptsAreFaithful(cfg: Config, s0: Sys, run: seq<Action>)
    requires Tolerable(cfg) && Init(cfg, s0) && Allowed(cfg, s0, run)
    ensures var s := Run(s0, run);
            && (forall id | Placed(s.q, id) ::
                  && id in s.ledger && id in s.q.tasks && s.q.tasks[id].msg.Some?
                  && Recorded(s.ledger[id], s.q.tasks[id].msg.value))
            && (forall w | Live(s, w) ::
                  && var m := s.workers[w].m;
                  && m.id in s.ledger && Recorded(s.ledger[m.id], m)
                  && (forall err, isFailure, delay, cutoff, now ::
                        TerminalCmd(m, Failed(err, false, isFailure, delay, cutoff), now).CRetry?
                        <==> s.ledger[m.id].failures < s.ledger[m.id].original.retry))
  {
    hide SysInv, Init, Allowed, Run;
    InitSysInv(cfg, s0);
    assert Faithful(s0) by { InitFaithful(cfg, s0); }
    RunFaithful(cfg, s0, run);
    var s := Run(s0, run);
    SysInvFenced(cfg, s);
    forall w | Live(s, w)
      ensures var m := s.workers[w].m; m.id in s.ledger && Recorded(s.ledger[m.id], m)
    {
      assert Owns(s, w);
      assert Placed(s.q, s.workers[w].m.id);
    }
  }

  lemma InitFaithful(cfg: Config, s: Sys)
    requires Init(cfg, s)
    ensures Faithful(s)
  {
  }

  // ---------------------------------------------------------------- bounded retries

  /** A retry of the task that goes through. */
  predicate Retries(s: Sys, a: Action, id: string) {
    var c := CmdOf(s, a);
    c.Some? && c.value.CRetry? && c.value.m.id == id && Effect(s, a).reply == Ok
  }

  function CountRetries(s: Sys, run: seq<Action>, id: string): nat
    decreases run
  {
    if run == [] then 0 else (if Retries(s, run[0], id) then 1 else 0) + CountRetries(Step(s, run[0]), run[1..], id)
  }

  /** The configured IsFailure counts the error of every failed attempt. */
  predicate Counts(s: Sys, a: Action) {
    match a
    case AWrite(wid, _) =>
      wid in s.workers && s.workers[wid].write.Some? && s.workers[wid].write.value.o.Failed? ==> s.workers[wid].write.value.o.isFailure
    case AMove(_, o, _) => o.Failed? ==> o.isFailure
    case _ => true
  }

  /** The client submits a task under the id, and it is accepted. */
  predicate Resubmits(s: Sys, a: Action, id: string) {
    && a.AClient? && Submits(a.c)
    && a.c.m.id == id && Effect(s, a).reply == Ok
  }

  /** All errors count, and the id stays with the one task. */
  ghost predicate OneTask(s: Sys, run: seq<Action>, id: string)
    decreases run
  {
    run == [] || (Counts(s, run[0]) && !Resubmits(s, run[0], id) && OneTask(Step(s, run[0]), run[1..], id))
  }

  /** Only a counted retry moves the ledger of a task. */
  lemma LedgerStep(cfg: Config, s: Sys, a: Action, id: string)
    requires SysInv(cfg, s) && Faithful(s) && Enabled(cfg, s, a) && Counts(s, a) && !Resubmits(s, a, id)
    ensures var t := Step(s, a);
            && (Retries(s, a, id) ==>
                  && id in s.ledger && id in t.ledger && t.ledger[id].original == s.ledger[id].original
                  && t.ledger[id].failures == s.ledger[id].failures + 1)
            && (!Retries(s, a, id) && id in s.ledger ==>
                  && id in t.ledger && t.ledger[id].original == s.ledger[id].original
                  && t.ledger[id].failures == s.ledger[id].failures)
  {
    hide Inv, Exec, Within, SysInv, Enabled, NextWorkers, NextBeats, NextSweeps, NextOwner, Faithful, Entry, TerminalCmd;
    if a.AClient? { ClientSubmits(cfg, s, a); }
    if Retries(s, a, id) {
      RetryPlaces(cfg, s, a, id);
      FaithfulEntry(s, id);
      assert id in s.ledger by { EntryKnown(s.q, s.ledger, id); }
      RetryCounts(s, a);
    }
  }

  lemma EntryKnown(q: QueueState, ledger: map<string, Ledger>, id: string)
    requires Entry(q, ledger, id)
    ensures id in ledger
  {
  }

  lemma RetryCounts(s: Sys, a: Action)
    requires Counts(s, a) && CmdOf(s, a).Some? && CmdOf(s, a).value.CRetry? && (a.AClient? ==> Submits(a.c))
    ensures (a.AWrite? || a.AMove?) && CmdOf(s, a).value.isFailure
  {
  }

  lemma ClientSubmits(cfg: Config, s: Sys, a: Action)
    requires Enabled(cfg, s, a) && a.AClient?
    ensures Submits(a.c)
  {
    hide Exec;
  }

  lemma RetryPlaces(cfg: Config, s: Sys, a: Action, id: string)
    requires SysInv(cfg, s) && Enabled(cfg, s, a) && Retries(s, a, id)
    ensures Placed(s.q, id) && Placed(Step(s, a).q, id)
  {
    hide Inv, Exec, Enabled, CmdOf;
    var c := CmdOf(s, a).value;
    CmdAddressed(cfg, s, a);
    AllOrNothing(s.q, cfg.name, c);
    WorkerTarget(s.q, cfg.name, c);
    StepQueue(s, a);
  }

  /** Retry - Retried is used up by every retry, so that at most Retry of them ever go through. */
  lemma {:induction false} RetriesUseUpTheLimit(cfg: Config, s: Sys, run: seq<Action>, id: string)
    requires Tolerable(cfg) && SysInv(cfg, s) && Faithful(s) && Allowed(cfg, s, run)
    requires OneTask(s, run, id)
    ensures CountRetries(s, run, id) > 0 ==>
      id in s.ledger && s.ledger[id].failures + CountRetries(s, run, id) <= s.ledger[id].original.retry
    decreases run
  {
    hide SysInv, Faithful, Step, Enabled, Retries, Counts, Resubmits;
    if run != [] {
      var a := run[0];
      var t := Step(s, a);
      StepKeepsFencing(cfg, s, a);
      StepFaithful(cfg, s, a);
      RetriesUseUpTheLimit(cfg, t, run[1..], id);
      LedgerStep(cfg, s, a, id);
      if Retries(s, a, id) {
        RetryPlaces(cfg, s, a, id);
        assert Entry(t.q, t.ledger, id) by { FaithfulEntry(t, id); }
      } else if CountRetries(t, run[1..], id) > 0 {
        LedgerKnows(cfg, s, a, id);
      }
    }
  }

  lemma FaithfulEntry(s: Sys, id: string)
    requires Faithful(s) && Placed(s.q, id)
    ensures Entry(s.q, s.ledger, id)
  {
  }

  /** A step that does not submit a task gives it no ledger. */
  lemma LedgerKnows(cfg: Config, s: Sys, a: Action, id: string)
    requires Enabled(cfg, s, a) && !Resubmits(s, a, id) && id in Step(s, a).ledger
    ensures id in s.ledger
  {
    hide Exec, Within, LeaseValid, NextWorkers, NextBeats, NextSweeps, NextOwner;
  }

  /**
   When all errors count, a placed task is retried at most Retry - Retried times more, by workers
   and recoverers together; the failure after that archives it.
   */
  lemma RetriesAreBounded(cfg: Config, s0: Sys, before: seq<Action>, after: seq<Action>, id: string)
    requires Tolerable(cfg) && Init(cfg, s0) && Allowed(cfg, s0, before) && Allowed(cfg, Run(s0, before), after)
    requires OneTask(Run(s0, before), after, id)
    requires Placed(Run(s0, before).q, id)
    ensures var q := Run(s0, before).q;
            && id in q.tasks && q.tasks[id].msg.Some?
            && CountRetries(Run(s0, before), after, id) <= q.tasks[id].msg.value.retry - q.tasks[id].msg.value.retried
  {
    hide SysInv, Init, Allowed, Run, OneTask, Placed;
    InitSysInv(cfg, s0);
    assert Faithful(s0) by { InitFaithful(cfg, s0); }
    RunFaithful(cfg, s0, before);
    RetriesUseUpTheLimit(cfg, Run(s0, before), after, id);
  }
}
