/**
 Semaphore tokens, worker goroutines and the order of a graceful shutdown (processor.go, server.go).
 The channel `sema` holds a token for every worker, for the processor goroutine while it looks for
 a task, and for every slot that shutdown has taken back.
 */
module Shutdown {

  /**
   The processor goroutine: at the select of its loop, at that of exec, holding a token, offering a
   task to the heartbeater, or gone.
   */
  datatype Fetcher = Polling | Choosing | Fetching | Offering | Gone

  /** How far the server's shutdown has come. */
  datatype Phase =
    | Serving
    | Closing               // quit is closed, nothing is waiting on `done` yet
    | Waiting               // the send on `done` waits for the processor goroutine
    | Stopped               // stop has returned
    | Collecting            // shutdown takes the tokens back
    | Drained               // processor.shutdown has returned
    | SyncerDown
    | HeartbeaterDown

  /** Worker goroutines by what they do next: finish the task, hand a late write to the syncer,
      report to the heartbeater, or give back the token. */
  datatype Proc = Proc(
    cap: nat,
    held: nat,
    fetcher: Fetcher,
    running: nat,
    syncing: nat,
    reporting: nat,
    releasing: nat,
    collected: nat,
    phase: Phase)

  function Workers(p: Proc): nat {
    p.running + p.syncing + p.reporting + p.releasing
  }

  predicate HeartbeaterUp(p: Proc) {
    !p.phase.HeartbeaterDown?
  }

  predicate SyncerUp(p: Proc) {
    !p.phase.SyncerDown? && !p.phase.HeartbeaterDown?
  }

  datatype Event =
    | Enter                 // nothing is waiting on `done`, and the loop calls exec
    | Acquire               // exec takes a token, whether quit is closed or not
    | Quit                  // exec returns because quit is closed
    | GiveUp                // no task, or an error: exec gives the token back
    | Take                  // exec has dequeued a task
    | HandOver              // the heartbeater receives it and the worker starts
    | Finish                // a worker's last write went through, or none was due
    | FinishLate            // a worker's last write failed
    | Sync                  // the syncer receives the late write
    | Report                // the heartbeater receives the finished message
    | Release               // the worker gives its token back
    | CloseQuit
    | SendDone
    | Leave                 // the processor goroutine receives `done` and returns
    | BeginCollect
    | Collect
    | EndCollect
    | StopSyncer
    | StopHeartbeater

  predicate Enabled(p: Proc, e: Event) {
    match e
    case Enter => p.fetcher.Polling? && !p.phase.Waiting?
    case Acquire => p.fetcher.Choosing? && p.held < p.cap
    case Quit => p.fetcher.Choosing? && !p.phase.Serving?
    case GiveUp => p.fetcher.Fetching? && p.held > 0
    case Take => p.fetcher.Fetching?
    case HandOver => p.fetcher.Offering? && HeartbeaterUp(p)
    case Finish => p.running > 0
    case FinishLate => p.running > 0
    case Sync => p.syncing > 0 && SyncerUp(p)
    case Report => p.reporting > 0 && HeartbeaterUp(p)
    case Release => p.releasing > 0 && p.held > 0
    case CloseQuit => p.phase.Serving?
    case SendDone => p.phase.Closing?
    case Leave => p.phase.Waiting? && p.fetcher.Polling?
    case BeginCollect => p.phase.Stopped?
    case Collect => p.phase.Collecting? && p.collected < p.cap && p.held < p.cap
    case EndCollect => p.phase.Collecting? && p.collected == p.cap
    case StopSyncer => p.phase.Drained?
    case StopHeartbeater => p.phase.SyncerDown?
  }

  function Next(p: Proc, e: Event): Proc
    requires Enabled(p, e)
  {
    match e
    case Enter => p.(fetcher := Choosing)
    case Acquire => p.(fetcher := Fetching, held := p.held + 1)
    case Quit => p.(fetcher := Polling)
    case GiveUp => p.(fetcher := Polling, held := p.held - 1)
    case Take => p.(fetcher := Offering)
    case HandOver => p.(fetcher := Polling, running := p.running + 1)
    case Finish => p.(running := p.running - 1, reporting := p.reporting + 1)
    case FinishLate => p.(running := p.running - 1, syncing := p.syncing + 1)
    case Sync => p.(syncing := p.syncing - 1, reporting := p.reporting + 1)
    case Report => p.(reporting := p.reporting - 1, releasing := p.releasing + 1)
    case Release => p.(releasing := p.releasing - 1, held := p.held - 1)
    case CloseQuit => p.(phase := Closing)
    case SendDone => p.(phase := Waiting)
    case Leave => p.(fetcher := Gone, phase := Stopped)
    case BeginCollect => p.(phase := Collecting)
    case Collect => p.(collected := p.collected + 1, held := p.held + 1)
    case EndCollect => p.(phase := Drained)
    case StopSyncer => p.(phase := SyncerDown)
    case StopHeartbeater => p.(phase := HeartbeaterDown)
  }

  function Start(cap: nat): Proc {
    Proc(cap, 0, Polling, 0, 0, 0, 0, 0, Serving)
  }

  predicate Early(p: Proc) {
    p.phase.Serving? || p.phase.Closing? || p.phase.Waiting?
  }

  predicate Late(p: Proc) {
    p.phase.Drained? || p.phase.SyncerDown? || p.phase.HeartbeaterDown?
  }

  /** Every token is accounted for. */
  ghost predicate Accounted(p: Proc) {
    && p.held == Workers(p) + p.collected + (if p.fetcher.Fetching? || p.fetcher.Offering? then 1 else 0)
    && p.held <= p.cap
    && (p.fetcher.Gone? <==> !Early(p))
    && (p.collected > 0 ==> p.phase.Collecting? || Late(p))
    && (Late(p) ==> p.collected == p.cap)
  }

  ghost predicate Feasible(p: Proc, events: seq<Event>)
    decreases events
  {
    events == [] || (Enabled(p, events[0]) && Feasible(Next(p, events[0]), events[1..]))
  }

  function After(p: Proc, events: seq<Event>): Proc
    requires Feasible(p, events)
    decreases events
  {
    if events == [] then p else After(Next(p, events[0]), events[1..])
  }

  lemma {:induction false} RunAccounted(p: Proc, events: seq<Event>)
    requires Accounted(p) && Feasible(p, events)
    ensures Accounted(After(p, events)) && After(p, events).cap == p.cap
    decreases events
  {
    if events != [] {
      StepAccounted(p, events[0]);
      RunAccounted(Next(p, events[0]), events[1..]);
    }
  }

  lemma StepAccounted(p: Proc, e: Event)
    requires Accounted(p) && Enabled(p, e)
    ensures Accounted(Next(p, e)) && Next(p, e).cap == p.cap
  {
  }

  /**
   In every interleaving there are at most `concurrency` workers, and once processor.shutdown has
   returned, in particular once syncer or heartbeater are down, there are none and no more will start.
   */
  lemma WorkersBounded(cap: nat, events: seq<Event>)
    requires Feasible(Start(cap), events)
    ensures var p := After(Start(cap), events);
            && p.held == Workers(p) + p.collected + (if p.fetcher.Fetching? || p.fetcher.Offering? then 1 else 0)
            && Workers(p) <= cap
            && (Late(p) ==> Workers(p) == 0 && p.fetcher.Gone?)
            && (!SyncerUp(p) ==> p.syncing == 0)
            && (!HeartbeaterUp(p) ==> p.reporting == 0 && !p.fetcher.Offering?)
  {
    RunAccounted(Start(cap), events);
  }

  // ---------------------------------------------------------------- shutdown terminates

  /** What is left to do once stop waits for the processor goroutine. */
  function Remaining(p: Proc): nat
    requires p.collected <= p.cap
  {
    4 * p.running + 3 * p.syncing + 2 * p.reporting + p.releasing
    + (match p.fetcher case Polling => 1 case Choosing => 8 case Fetching => 7 case Offering => 6 case Gone => 0)
    + (p.cap - p.collected)
    + (match p.phase
       case Waiting => 6
       case Stopped => 5
       case Collecting => 4
       case Drained => 3
       case SyncerDown => 2
       case _ => 0)
  }

  predicate ShuttingDown(p: Proc) {
    !p.phase.Serving? && !p.phase.Closing?
  }

  /** From then on every step brings the end nearer. */
  lemma ShutdownAdvances(p: Proc, e: Event)
    requires Accounted(p) && ShuttingDown(p) && Enabled(p, e)
    ensures ShuttingDown(Next(p, e)) && Accounted(Next(p, e)) && Remaining(Next(p, e)) < Remaining(p)
  {
  }

  /**
   Until everything is down some step can be taken: no worker is ever stuck on a channel that
   nobody reads, and shutdown does return.
   */
  lemma ShutdownNeverSticks(p: Proc)
    requires Accounted(p) && ShuttingDown(p) && !p.phase.HeartbeaterDown?
    ensures exists e :: Enabled(p, e)
  {
    var e := match p.phase
      case Waiting => (match p.fetcher case Polling => Leave case Choosing => Quit case Fetching => GiveUp case _ => HandOver)
      case Stopped => BeginCollect
      case Collecting =>
        if p.collected == p.cap then EndCollect
        else if p.held < p.cap then Collect
        else if p.running > 0 then Finish
        else if p.syncing > 0 then Sync
        else if p.reporting > 0 then Report
        else Release
      case Drained => StopSyncer
      case _ => StopHeartbeater;
    assert Enabled(p, e);
  }

  /** So no run has more steps after that point than `Remaining` says. */
  lemma {:induction false} ShutdownIsBounded(p: Proc, events: seq<Event>)
    requires Accounted(p) && ShuttingDown(p) && Feasible(p, events)
    ensures |events| <= Remaining(p)
    decreases events
  {
    if events != [] {
      ShutdownAdvances(p, events[0]);
      ShutdownIsBounded(Next(p, events[0]), events[1..]);
    }
  }

  // ---------------------------------------------------------------- every worker ends once

  function One(b: bool): nat {
    if b then 1 else 0
  }

  function Count(events: seq<Event>, e: Event): nat {
    if events == [] then 0 else One(events[0] == e) + Count(events[1..], e)
  }

  /** How many times each event has happened, by what it has changed between two states. */
  ghost predicate Balance(p: Proc, t: Proc, n: Event -> nat) {
    && t.held - p.held == n(Acquire) - n(GiveUp) - n(Release) + n(Collect)
    && One(t.fetcher.Fetching?) - One(p.fetcher.Fetching?) == n(Acquire) - n(GiveUp) - n(Take)
    && One(t.fetcher.Offering?) - One(p.fetcher.Offering?) == n(Take) - n(HandOver)
    && t.running - p.running == n(HandOver) - n(Finish) - n(FinishLate)
    && t.syncing - p.syncing == n(FinishLate) - n(Sync)
    && t.reporting - p.reporting == n(Finish) + n(Sync) - n(Report)
    && t.releasing - p.releasing == n(Report) - n(Release)
    && t.collected - p.collected == n(Collect)
  }

  lemma StepBalance(p: Proc, e: Event)
    requires Enabled(p, e)
    ensures Balance(p, Next(p, e), x => One(e == x))
  {
  }

  lemma AddBalance(p: Proc, u: Proc, t: Proc, e: Event, events: seq<Event>)
    requires events != [] && events[0] == e
    requires Balance(p, u, x => One(e == x)) && Balance(u, t, x => Count(events[1..], x))
    ensures Balance(p, t, x => Count(events, x))
  {
    hide One;
  }

  lemma {:induction false} RunBalance(p: Proc, events: seq<Event>)
    requires Feasible(p, events)
    ensures Balance(p, After(p, events), x => Count(events, x))
    decreases events
  {
    hide Balance, Next, Enabled;
    if events == [] {
      NoEvents(p);
    } else {
      StepBalance(p, events[0]);
      RunBalance(Next(p, events[0]), events[1..]);
      AddBalance(p, Next(p, events[0]), After(p, events), events[0], events);
    }
  }

  lemma NoEvents(p: Proc)
    ensures Balance(p, p, x => Count([], x))
  {
  }

  /**
   Once shutdown has returned, every task that was dequeued had a worker, and every worker has ended,
   reported to the heartbeater and given its token back exactly once.
   */
  lemma EveryWorkerEnds(cap: nat, events: seq<Event>)
    requires Feasible(Start(cap), events) && Late(After(Start(cap), events))
    ensures var started := Count(events, HandOver);
            && Count(events, Take) == started && Count(events, Finish) + Count(events, FinishLate) == started
            && Count(events, Sync) == Count(events, FinishLate)
            && Count(events, Report) == started && Count(events, Release) == started && Count(events, Collect) == cap
  {
    hide Enabled, Next, Feasible, After;
    RunBalance(Start(cap), events);
    RunAccounted(Start(cap), events);
  }
}
