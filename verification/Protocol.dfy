/**
 The lease protocol of one queue: clients, servers with their workers, heartbeats and recoverers,
 each with a clock of its own, around the broker (processor.go, heartbeat.go, recoverer.go).
 Each action is one atomic step; a crashed process is one that takes no further step.
 */
module Protocol {
  import opened Base
  import opened Queues
  import opened Invariant
  import opened Runs

  /** How an attempt ends.  `delay` and `cutoff` are whatever the delay function and calendar give. */
  datatype Outcome =
    | Succeeded
    | Failed(err: string, skipRetry: bool, isFailure: bool, delay: int, cutoff: int)
    | Aborted

  /** The broker call that ends an attempt (processor.go, handleSucceededMessage and handleFailedMessage). */
  function TerminalCmd(m: TaskMessage, o: Outcome, now: int): Cmd {
    match o
    case Succeeded => if m.retention > 0 then CMarkAsComplete(m, now) else CDone(m, now)
    case Aborted => CRequeue(m, now)
    case Failed(err, skipRetry, isFailure, delay, cutoff) =>
      if m.retried >= m.retry || skipRetry then CArchive(m, err, now, cutoff)
      else CRetry(m, Sec(now + delay), err, isFailure, now)
  }

  /**
   A last write on its way: how the attempt ended, the clock reading of the lease check, the end of
   the lease then, and the time by which the write takes effect, if it does.
   */
  datatype Write = Write(o: Outcome, checked: int, limit: int, latest: int)

  /**
   A worker goroutine: the message it was given, its local lease, whether it has not ended yet, a
   lease extension that Redis has granted but that has not reached the local lease yet, and its last write.
   */
  datatype Worker = Worker(
    node: string,
    m: TaskMessage,
    deadline: int,
    running: bool,
    grant: Option<int>,
    write: Option<Write>)

  datatype Failure = Failure(err: string, second: int)

  /** What the client asked for, how many failures of the task have been counted since, and the last failed attempt. */
  datatype Ledger = Ledger(original: TaskMessage, failures: nat, last: Option<Failure>)

  /** A heartbeat under way: whom it is for, and the clock reading that its new scores come from. */
  datatype Beat = Beat(reading: int, wids: set<nat>)

  /** A recovery sweep under way: the clock reading that it started with, and the tasks still to move. */
  datatype Sweep = Sweep(started: int, left: seq<TaskMessage>)

  /** `owner` and `ledger` record history. */
  datatype Sys = Sys(
    q: QueueState,
    clock: map<string, int>,
    workers: map<nat, Worker>,
    beats: map<string, Beat>,
    sweeps: map<string, Sweep>,
    owner: map<string, nat>,
    ledger: map<string, Ledger>)

  /**
   How recovery sweeps of several servers go together.  Exclusive: they do not overlap.  Timed: they
   may, but each makes its moves within `time` of its start by its own clock, a retry is delayed by
   at least `delay`, and no client's task is accepted under an id that a sweep still has to move.
   Free: anything goes.
   */
  datatype Sweeping = Exclusive | Timed(time: int, delay: int) | Free

  /**
   `skew` bounds the difference of any two clocks, `latency` the time from a heartbeat's clock
   reading to the write of its scores, and `delivery` the time after the end of a lease at which a
   last write that was decided on under it may still take effect.  With `atomicBeat` the scores reach
   only workers that may still write; without it, any worker the server ever had.
   */
  datatype Config = Config(
    name: string,
    skew: int,
    latency: int,
    delivery: int,
    atomicBeat: bool,
    sweeping: Sweeping)

  /**
   `at` is a clock reading that may be older than the call it is for.  ACheck ends a worker whose
   lease is not valid, and else sends its last write on its way.  ACrash also stands for a last write
   that fails without effect, ADrop for a heartbeat that does, and ASkip for a recoverer's
   move; a recoverer that crashes has skipped the rest of its list.
   */
  datatype Action =
    | AClient(c: Cmd)
    | ATick(clock: map<string, int>)
    | ADequeue(node: string, wid: nat, at: int)
    | ARead(node: string, wids: set<nat>)
    | AExtend(node: string, wids: set<nat>)
    | ADrop(node: string)
    | AReset(wid: nat)
    | ACheck(wid: nat, o: Outcome, latest: int)
    | AWrite(wid: nat, at: int)
    | ACrash(wid: nat)
    | AList(node: string, at: int)
    | AMove(node: string, o: Outcome, at: int)
    | ASkip(node: string)
    | AForward(node: string, src: Source, at: int)
    | AJanitor(node: string, batch: int, at: int)
    | AResult(node: string, id: string, data: seq<bv8>)
    | APause(node: string, on: bool)

  ghost predicate Within(cfg: Config, clock: map<string, int>) {
    forall a, b | a in clock && b in clock :: clock[a] - clock[b] <= cfg.skew
  }

  predicate LeaseValid(s: Sys, w: nat) {
    w in s.workers && s.workers[w].node in s.clock && s.clock[s.workers[w].node] <= s.workers[w].deadline
  }

  /** The worker may still write: its local lease is valid, or its last write is on its way. */
  predicate Live(s: Sys, w: nat) {
    && w in s.workers && s.workers[w].running && s.workers[w].node in s.clock
    && s.clock[s.workers[w].node] <= (if s.workers[w].write.None? then s.workers[w].deadline else s.workers[w].write.value.latest)
  }

  /** The node's sweep may still make moves. */
  predicate Open(cfg: Config, s: Sys, node: string) {
    && node in s.clock && node in s.sweeps
    && (cfg.sweeping.Timed? ==> s.clock[node] <= s.sweeps[node].started + cfg.sweeping.time)
  }

  /** A sweep that may still make moves has the id on its list. */
  ghost predicate OnOpenList(cfg: Config, s: Sys, id: string) {
    exists n, m :: Open(cfg, s, n) && m in s.sweeps[n].left && m.id == id
  }

  predicate FreshMessage(cfg: Config, c: Cmd) {
    Submits(c) && c.m.queue == cfg.name && c.m.retried == 0 && c.m.retry >= 0
  }

  ghost predicate Enabled(cfg: Config, s: Sys, a: Action) {
    match a
    case AClient(c) => FreshMessage(cfg, c) && (cfg.sweeping.Timed? && OnOpenList(cfg, s, c.m.id) ==> Exec(s.q, c).reply != Ok)
    case ATick(clock) => clock.Keys == s.clock.Keys && (forall n | n in clock :: s.clock[n] <= clock[n]) && Within(cfg, clock)
    case ADequeue(node, wid, at) => node in s.clock && at <= s.clock[node] && wid !in s.workers
    case ARead(node, wids) =>
      && node in s.clock && node !in s.beats
      && forall w | w in wids :: w in s.workers && s.workers[w].node == node
    case AExtend(node, wids) =>
      && node in s.clock && node in s.beats && wids <= s.beats[node].wids
      && s.clock[node] <= s.beats[node].reading + cfg.latency
      && (cfg.atomicBeat ==> forall w | w in wids :: Live(s, w))
    case ADrop(node) => node in s.beats
    case AReset(wid) => wid in s.workers && s.workers[wid].grant.Some?
    case ACheck(wid, _, latest) =>
      && wid in s.workers && s.workers[wid].running && s.workers[wid].write.None?
      && latest <= s.workers[wid].deadline + cfg.delivery
    case AWrite(wid, at) =>
      && wid in s.workers && s.workers[wid].running && s.workers[wid].write.Some?
      && s.workers[wid].write.value.checked <= at <= Clock(s, s.workers[wid].node)
    case ACrash(wid) => wid in s.workers
    case AList(node, at) =>
      && node in s.clock && at <= s.clock[node] && (node in s.sweeps ==> s.sweeps[node].left == [])
      && (cfg.sweeping.Exclusive? ==> forall n | n in s.sweeps :: s.sweeps[n].left == [])
    case AMove(node, o, at) =>
      && Open(cfg, s, node) && s.sweeps[node].left != [] && o.Failed? && !o.skipRetry
      && s.sweeps[node].started <= at <= s.clock[node]
      && (cfg.sweeping.Timed? ==> o.delay >= cfg.sweeping.delay)
    case ASkip(node) => node in s.sweeps && s.sweeps[node].left != []
    case AForward(node, _, at) => node in s.clock && at <= s.clock[node]
    case AJanitor(node, _, at) => node in s.clock && at <= s.clock[node]
    case AResult(node, _, _) => node in s.clock
    case APause(node, _) => node in s.clock
  }

  function IdsOf(s: Sys, wids: set<nat>): set<string> {
    set w | w in wids && w in s.workers :: s.workers[w].m.id
  }

  function Clock(s: Sys, node: string): int {
    if node in s.clock then s.clock[node] else 0
  }

  function Left(s: Sys, node: string): seq<TaskMessage> {
    if node in s.sweeps then s.sweeps[node].left else []
  }

  /** The broker call that an action makes.  A worker without a valid lease makes none. */
  function CmdOf(s: Sys, a: Action): Option<Cmd> {
    match a
    case AClient(c) => Some(c)
    case ADequeue(_, _, at) => Some(CDequeue(at))
    case AExtend(node, wids) => if node in s.beats then Some(CExtendLease(IdsOf(s, wids), s.beats[node].reading)) else None
    case AWrite(wid, at) =>
      if Live(s, wid) && s.workers[wid].write.Some?
      then Some(TerminalCmd(s.workers[wid].m, s.workers[wid].write.value.o, at)) else None
    case AList(_, at) => Some(CListExpired(at))
    case AMove(node, o, at) => if Left(s, node) != [] then Some(TerminalCmd(Left(s, node)[0], o, at)) else None
    case AForward(_, src, at) => Some(CForward(src, at))
    case AJanitor(_, batch, at) => Some(CDeleteExpired(at, batch))
    case AResult(node, id, data) => Some(CWriteResult(id, data, Clock(s, node)))
    case APause(node, on) => Some(CPause(on, Clock(s, node)))
    case ARead(_, _) => None
    case ADrop(_) => None
    case ASkip(_) => None
    case ATick(_) => None
    case AReset(_) => None
    case ACheck(_, _, _) => None
    case ACrash(_) => None
  }

  function Effect(s: Sys, a: Action): Out {
    match CmdOf(s, a)
    case None => Out(s.q, Nothing)
    case Some(c) => Exec(s.q, c)
  }

  /** A failed attempt is a Retry or Archive that went through; a Retry with isFailure is counted. */
  function Charge(ledger: map<string, Ledger>, c: Cmd, reply: Reply): map<string, Ledger> {
    if (c.CRetry? || c.CArchive?) && reply == Ok && c.m.id in ledger then
      var l := ledger[c.m.id];
      ledger[c.m.id := Ledger(l.original,
                              if c.CRetry? && c.isFailure then l.failures + 1 else l.failures,
                              Some(Failure(c.err, Sec(c.now))))]
    else ledger
  }

  /** The first task is off the node's list. */
  function Popped(s: Sys, node: string): map<string, Sweep> {
    if Left(s, node) == [] then s.sweeps else s.sweeps[node := s.sweeps[node].(left := s.sweeps[node].left[1..])]
  }

  function Granted(s: Sys, wids: set<nat>, until: int): map<nat, Worker> {
    map w | w in s.workers :: if w in wids then s.workers[w].(grant := Some(until)) else s.workers[w]
  }

  function Stopped(s: Sys, wid: nat): map<nat, Worker> {
    if wid in s.workers then s.workers[wid := s.workers[wid].(running := false)] else s.workers
  }

  function NextWorkers(s: Sys, a: Action): map<nat, Worker> {
    match a
    case ADequeue(node, wid, at) =>
      var reply := Effect(s, a).reply;
      if reply.Message? then s.workers[wid := Worker(node, reply.msg, at + LEASE_DURATION, true, None, None)] else s.workers
    case AExtend(node, wids) =>
      if node in s.beats then Granted(s, wids, s.beats[node].reading + LEASE_DURATION) else s.workers
    case AReset(wid) => AfterReset(s, wid)
    case ACheck(wid, o, latest) => Checked(s, wid, o, latest)
    case AWrite(wid, _) => Stopped(s, wid)
    case ACrash(wid) => Stopped(s, wid)
    case _ => s.workers
  }

  /** The worker looks at its lease before its last write. */
  function Checked(s: Sys, wid: nat, o: Outcome, latest: int): map<nat, Worker> {
    if LeaseValid(s, wid) then
      var w := s.workers[wid];
      s.workers[wid := w.(write := Some(Write(o, Clock(s, w.node), w.deadline, latest)))]
    else Stopped(s, wid)
  }

  /** The granted extension reaches the local lease, if that is still valid. */
  function AfterReset(s: Sys, wid: nat): map<nat, Worker> {
    if wid in s.workers && s.workers[wid].grant.Some? then
      var w := s.workers[wid];
      s.workers[wid := w.(grant := None, deadline := if LeaseValid(s, wid) then w.grant.value else w.deadline)]
    else s.workers
  }

  function NextBeats(s: Sys, a: Action): map<string, Beat> {
    match a
    case ARead(node, wids) => s.beats[node := Beat(Clock(s, node), wids)]
    case AExtend(node, _) => s.beats - {node}
    case ADrop(node) => s.beats - {node}
    case _ => s.beats
  }

  function NextSweeps(s: Sys, a: Action): map<string, Sweep> {
    match a
    case AList(node, at) =>
      var reply := Effect(s, a).reply;
      if reply.Messages? then s.sweeps[node := Sweep(at, reply.msgs)] else s.sweeps
    case AMove(node, _, _) => Popped(s, node)
    case ASkip(node) => Popped(s, node)
    case _ => s.sweeps
  }

  function NextOwner(s: Sys, a: Action): map<string, nat> {
    if a.ADequeue? && Effect(s, a).reply.Message? then s.owner[Effect(s, a).reply.msg.id := a.wid] else s.owner
  }

  function NextLedger(s: Sys, a: Action): map<string, Ledger> {
    match CmdOf(s, a)
    case None => s.ledger
    case Some(c) =>
      if a.AClient? then (if Submits(c) && Effect(s, a).reply == Ok then s.ledger[c.m.id := Ledger(c.m, 0, None)] else s.ledger)
      else if a.AWrite? || a.AMove? then Charge(s.ledger, c, Effect(s, a).reply)
      else s.ledger
  }

  function Step(s: Sys, a: Action): Sys {
    Sys(Effect(s, a).q, if a.ATick? then a.clock else s.clock, NextWorkers(s, a), NextBeats(s, a),
        NextSweeps(s, a), NextOwner(s, a), NextLedger(s, a))
  }

  ghost predicate Init(cfg: Config, s: Sys) {
    Within(cfg, s.clock) && s == Sys(EMPTY_QUEUE, s.clock, map[], map[], map[], map[], map[])
  }

  ghost predicate Allowed(cfg: Config, s: Sys, run: seq<Action>)
    decreases run
  {
    run == [] || (Enabled(cfg, s, run[0]) && Allowed(cfg, Step(s, run[0]), run[1..]))
  }

  function Run(s: Sys, run: seq<Action>): Sys
    decreases run
  {
    if run == [] then s else Run(Step(s, run[0]), run[1..])
  }

  // ---------------------------------------------------------------- what holds in every configuration

  /** The broker invariant, and every message in flight belongs to this queue. */
  ghost predicate Sound(cfg: Config, s: Sys) {
    && Inv(s.q, cfg.name)
    && (forall w | w in s.workers :: s.workers[w].m.queue == cfg.name)
    && (forall n, i | n in s.sweeps && 0 <= i < |s.sweeps[n].left| :: s.sweeps[n].left[i].queue == cfg.name)
  }

  lemma TerminalAddressed(name: string, m: TaskMessage, o: Outcome, now: int)
    requires m.queue == name
    ensures Addressed(name, TerminalCmd(m, o, now))
    ensures var c := TerminalCmd(m, o, now);
            && EndsAttempt(c)
            && c.m == m
  {
  }

  lemma CmdAddressed(cfg: Config, s: Sys, a: Action)
    requires Sound(cfg, s) && Enabled(cfg, s, a)
    ensures CmdOf(s, a).Some? ==> Addressed(cfg.name, CmdOf(s, a).value)
  {
    hide Inv, TerminalCmd, Live, LeaseValid, Within, Exec, IdsOf;
    match a
    case AWrite(wid, at) => TerminalAddressed(cfg.name, s.workers[wid].m, s.workers[wid].write.value.o, at);
    case AMove(node, o, at) => TerminalAddressed(cfg.name, s.sweeps[node].left[0], o, at);
    case _ =>
  }

  lemma StepSound(cfg: Config, s: Sys, a: Action)
    requires Sound(cfg, s) && Enabled(cfg, s, a)
    ensures Sound(cfg, Step(s, a))
  {
    hide Inv, Exec, Step, Enabled;
    CmdAddressed(cfg, s, a);
    if CmdOf(s, a).Some? { StepKeepsInv(s.q, cfg.name, CmdOf(s, a).value); }
    StepQueue(s, a);
    WorkersAddressed(cfg, s, a);
    SweepsAddressed(cfg, s, a);
  }

  lemma WorkersAddressed(cfg: Config, s: Sys, a: Action)
    requires Sound(cfg, s)
    ensures forall w | w in Step(s, a).workers :: Step(s, a).workers[w].m.queue == cfg.name
  {
    if a.ADequeue? {
      hide Inv, Exec, NextBeats, NextSweeps, NextOwner, NextLedger;
      DequeueReply(s.q, cfg.name, a.at);
    } else {
      hide Inv, Effect, CmdOf, LeaseValid, NextBeats, NextSweeps, NextOwner, NextLedger;
    }
  }

  lemma SweepsAddressed(cfg: Config, s: Sys, a: Action)
    requires Sound(cfg, s)
    ensures var t := Step(s, a);
            forall n, i | n in t.sweeps && 0 <= i < |t.sweeps[n].left| :: t.sweeps[n].left[i].queue == cfg.name
  {
    hide Inv, Step, LeaseExpired;
    SweepsAfter(s, a);
    if a.AList? {
      ListedMessages(s.q, cfg.name, Sec(a.at - 30 * SECOND));
    }
  }

  /** Only AList starts a sweep; a step may take the first task off a list. */
  lemma SweepsAfter(s: Sys, a: Action)
    ensures Step(s, a).sweeps ==
      if a.AList? then s.sweeps[a.node := Sweep(a.at, LeaseExpired(s.q, Sec(a.at - 30 * SECOND)))]
      else if a.AMove? || a.ASkip? then Popped(s, a.node)
      else s.sweeps
  {
    hide Effect, LeaseExpired, Popped, NextWorkers, NextBeats, NextOwner, NextLedger, Sec;
    if a.AList? { ListEffect(s, a); }
  }

  lemma ListEffect(s: Sys, a: Action)
    requires a.AList?
    ensures Effect(s, a) == Out(s.q, Messages(LeaseExpired(s.q, Sec(a.at - 30 * SECOND))))
  {
    hide Exec, LeaseExpired;
    ListReply(s.q, a.at);
  }

  /** What clients, forwarders, janitors, handlers and operators do in the protocol is one broker call each. */
  lemma CallsAreSteps(s: Sys, a: Action)
    ensures match a
            case AClient(c) => Step(s, a).q == Exec(s.q, c).q
            case AForward(_, src, at) => Step(s, a).q == Exec(s.q, CForward(src, at)).q
            case AJanitor(_, batch, at) => Step(s, a).q == Exec(s.q, CDeleteExpired(at, batch)).q
            case AResult(_, id, data) => Step(s, a).q == WriteResult(s.q, id, data)
            case APause(_, on) => Step(s, a).q == s.q.(paused := on)
            case ACrash(_) => Step(s, a).q == s.q
            case _ => true
  {
    hide Enqueue, EnqueueUnique, Schedule, ScheduleUnique, Forward, DeleteExpired,
         NextWorkers, NextBeats, NextSweeps, NextOwner, NextLedger;
  }

  lemma CheckedState(s: Sys, w: nat, o: Outcome, latest: int)
    ensures Step(s, ACheck(w, o, latest)) == s.(workers := Checked(s, w, o, latest))
  {
    hide Checked;
  }

  lemma WrittenState(s: Sys, w: nat, at: int)
    requires Live(s, w) && s.workers[w].write.Some?
    ensures var t := Step(s, AWrite(w, at));
            && t == s.(q := Exec(s.q, TerminalCmd(s.workers[w].m, s.workers[w].write.value.o, at)).q, workers := t.workers, ledger := t.ledger)
            && t.workers == s.workers[w := s.workers[w].(running := false)]
  {
    hide Exec, TerminalCmd, Charge;
  }

  lemma DequeuedState(s: Sys, node: string, wid: nat, at: int)
    requires Exec(s.q, CDequeue(at)).reply.Message?
    ensures var t := Step(s, ADequeue(node, wid, at)); var out := Exec(s.q, CDequeue(at));
            && t == s.(q := out.q, workers := t.workers, owner := t.owner)
            && t.workers == s.workers[wid := Worker(node, out.reply.msg, at + LEASE_DURATION, true, None, None)]
  {
    hide Exec;
  }

  lemma ReadState(s: Sys, node: string, wids: set<nat>)
    ensures Step(s, ARead(node, wids)) == s.(beats := s.beats[node := Beat(Clock(s, node), wids)])
  {
  }

  lemma ExtendedState(s: Sys, node: string, wids: set<nat>)
    requires node in s.beats
    ensures Step(s, AExtend(node, wids)) ==
      s.(q := Exec(s.q, CExtendLease(IdsOf(s, wids), s.beats[node].reading)).q, beats := s.beats - {node},
         workers := Granted(s, wids, s.beats[node].reading + LEASE_DURATION))
  {
    hide Exec, Granted, IdsOf;
  }

  lemma ListedState(s: Sys, node: string, at: int)
    ensures Step(s, AList(node, at)) == s.(sweeps := s.sweeps[node := Sweep(at, LeaseExpired(s.q, Sec(at - 30 * SECOND)))])
  {
    hide LeaseExpired, Effect;
    ListEffect(s, AList(node, at));
  }

  lemma MovedState(s: Sys, node: string, o: Outcome, at: int)
    requires Left(s, node) != []
    ensures var t := Step(s, AMove(node, o, at));
            && t.q == Exec(s.q, TerminalCmd(Left(s, node)[0], o, at)).q
            && t.clock == s.clock && t.sweeps == Popped(s, node)
  {
    hide Exec, TerminalCmd, NextWorkers, NextBeats, NextOwner, NextLedger, Popped;
  }

  /** The first step of a run. */
  lemma RunFirst(cfg: Config, s: Sys, a: Action, rest: seq<Action>)
    ensures Run(s, [a] + rest) == Run(Step(s, a), rest)
    ensures Allowed(cfg, s, [a] + rest) <==> Enabled(cfg, s, a) && Allowed(cfg, Step(s, a), rest)
  {
    hide Step, Enabled;
    assert ([a] + rest)[0] == a && ([a] + rest)[1..] == rest;
  }

  lemma DequeueReply(q: QueueState, name: string, now: int)
    requires Inv(q, name)
    ensures var out := Exec(q, CDequeue(now));
            && out == Dequeue(q, Sec(now + LEASE_DURATION))
            && (out.reply.Message? ==> out.reply.msg.queue == name)
  {
    hide Inv;
    DequeueDelivers(q, name, Sec(now + LEASE_DURATION));
  }

  lemma ListReply(q: QueueState, now: int)
    ensures Exec(q, CListExpired(now)) == Out(q, Messages(LeaseExpired(q, Sec(now - 30 * SECOND))))
  {
    hide LeaseExpired;
  }

  /** The broker calls of a run, in order. */
  function Trace(s: Sys, run: seq<Action>): seq<Cmd>
    decreases run
  {
    if run == [] then []
    else (if CmdOf(s, run[0]).Some? then [CmdOf(s, run[0]).value] else []) + Trace(Step(s, run[0]), run[1..])
  }

  lemma StepQueue(s: Sys, a: Action)
    ensures Step(s, a).q == Effect(s, a).q
  {
    hide Effect, NextWorkers, NextBeats, NextSweeps, NextOwner, NextLedger;
  }

  /**
   Whatever the clocks, crashes and interleavings, a run of the protocol is a run of broker
   commands that keeps the invariant, so everything proved of those runs holds of the protocol.
   */
  lemma {:induction false} RunIsTrace(cfg: Config, s: Sys, run: seq<Action>)
    requires Sound(cfg, s) && Allowed(cfg, s, run)
    ensures AllAddressed(cfg.name, Trace(s, run))
    ensures Run(s, run).q == ExecAll(s.q, Trace(s, run)) && Sound(cfg, Run(s, run))
    decreases run
  {
    hide Sound, Exec, Enabled, Step, CmdOf;
    if run != [] {
      var a := run[0];
      StepSound(cfg, s, a);
      CmdAddressed(cfg, s, a);
      StepQueue(s, a);
      RunIsTrace(cfg, Step(s, a), run[1..]);
      if CmdOf(s, a).Some? {
        var rest := Trace(Step(s, a), run[1..]);
        var all := [CmdOf(s, a).value] + rest;
        assert all[0] == CmdOf(s, a).value && all[1..] == rest;
        assert Trace(s, run) == all;
      } else {
        assert Trace(s, run) == Trace(Step(s, a), run[1..]);
      }
    }
  }

  /** No task is lost or duplicated by any run, with workers crashing anywhere in it. */
  lemma ProtocolLosesNothing(cfg: Config, s: Sys, run: seq<Action>, id: string)
    requires Init(cfg, s) && Allowed(cfg, s, run)
    ensures One(Placed(Run(s, run).q, id)) == Balance(EMPTY_QUEUE, Trace(s, run), id)
    ensures Places(Run(s, run).q, id) <= 1
  {
    InitInv(cfg.name);
    RunIsTrace(cfg, s, run);
    NothingLost(s.q, cfg.name, Trace(s, run), id);
    OnePlace(Run(s, run).q, cfg.name, id);
  }
}
