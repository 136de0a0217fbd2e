/**
 The bounds of Fencing are exact.  Whenever clocks may differ, or heartbeats may be late, by more
 than the grace period absorbs, or overlapping sweeps may last into the next attempt, some run
 takes a task away from a worker with a valid lease.
 */
module Limits {
  import opened Base
  import opened SortedSets
  import opened Queues
  import opened Invariant
  import opened Effects
  import opened Runs
  import opened Protocol
  import opened Fencing

  ghost predicate Reachable(cfg: Config, s: Sys) {
    exists s0, run :: Init(cfg, s0) && Allowed(cfg, s0, run) && Run(s0, run) == s
  }

  lemma {:induction false} Append(cfg: Config, s: Sys, run: seq<Action>, a: Action)
    requires Allowed(cfg, s, run) && Enabled(cfg, Run(s, run), a)
    ensures Allowed(cfg, s, run + [a]) && Run(s, run + [a]) == Step(Run(s, run), a)
    decreases run
  {
    hide Step, Enabled;
    if run == [] {
      assert run + [a] == [a];
      assert [a][1..] == [];
    } else {
      Append(cfg, Step(s, run[0]), run[1..], a);
      assert (run + [a])[0] == run[0] && (run + [a])[1..] == run[1..] + [a];
    }
  }

  lemma Reach(cfg: Config, s: Sys, a: Action)
    requires Reachable(cfg, s) && Enabled(cfg, s, a)
    ensures Reachable(cfg, Step(s, a))
  {
    hide Step, Enabled, Run, Allowed, Init;
    var s0, run :| Init(cfg, s0) && Allowed(cfg, s0, run) && Run(s0, run) == s;
    Append(cfg, s0, run, a);
  }

  lemma ReachableSound(cfg: Config, s: Sys)
    requires Reachable(cfg, s)
    ensures Sound(cfg, s)
  {
    hide Allowed, Run;
    var s0, run :| Init(cfg, s0) && Allowed(cfg, s0, run) && Run(s0, run) == s;
    InitInv(cfg.name);
    RunIsTrace(cfg, s0, run);
  }

  // ---------------------------------------------------------------- stealing

  /** A pending move of a task that a live worker owns ends fencing. */
  lemma MoveSteals(cfg: Config, s: Sys, node: string, w: nat)
    requires Reachable(cfg, s) && Open(cfg, s, node) && Live(s, w) && s.sweeps[node].started <= s.clock[node]
    requires s.sweeps[node].left != [] && s.sweeps[node].left[0].id == s.workers[w].m.id
    ensures !Safe(cfg)
  {
    hide Inv, Exec, Reachable, Safe, Within;
    var o := Failed("lease expired", false, true, if cfg.sweeping.Timed? then cfg.sweeping.delay else 0, 0);
    var a := AMove(node, o, s.clock[node]);
    var t := Step(s, a);
    Reach(cfg, s, a);
    ReachableSound(cfg, s);
    StepQueue(s, a);
    var m := s.sweeps[node].left[0];
    var c := TerminalCmd(m, o, s.clock[node]);
    if m.id in s.q.active { AttemptEnded(s.q, cfg.name, m, o, s.clock[node]); } else { AllOrNothing(s.q, cfg.name, c); }
    assert Live(t, w) && !Owns(t, w);
    Unsafe(cfg, t);
  }

  lemma Unsafe(cfg: Config, s: Sys)
    requires Reachable(cfg, s) && !Fenced(cfg, s)
    ensures !Safe(cfg)
  {
    hide Fenced, Init, Allowed, Run;
  }

  /** Listing a task whose score looks old although its worker is live leads to the same end. */
  lemma ListSteals(cfg: Config, s: Sys, node: string, w: nat)
    requires Reachable(cfg, s) && node in s.clock && Live(s, w) && s.sweeps == map[]
    requires cfg.sweeping.Timed? ==> 0 <= cfg.sweeping.time
    requires s.q.active == [s.workers[w].m.id] && s.workers[w].m.id in s.q.lease
    requires s.q.lease[s.workers[w].m.id] <= Sec(s.clock[node] - 30 * SECOND)
    ensures !Safe(cfg)
  {
    hide Inv, Exec, Reachable, Safe, Sec, LeaseExpired, Within;
    var a := AList(node, s.clock[node]);
    var t := Step(s, a);
    Reach(cfg, s, a);
    ReachableSound(cfg, s);
    ListReply(s.q, s.clock[node]);
    ListedMessages(s.q, cfg.name, Sec(s.clock[node] - 30 * SECOND));
    assert t.sweeps[node].left == LeaseExpired(s.q, Sec(s.clock[node] - 30 * SECOND));
    assert t.sweeps[node].left != [] && t.sweeps[node].left[0].id in s.q.active;
    MoveSteals(cfg, t, node, w);
  }

  // ---------------------------------------------------------------- runs with one task

  function Task(name: string): TaskMessage {
    TaskMessage("x", name, "demo", Nil, 5, 0, "", 0, 1800, 0, "", 0, 0)
  }

  function Attempt(m: TaskMessage, score: int): QueueState {
    EMPTY_QUEUE.(active := ["x"], lease := map["x" := score],
                 tasks := map["x" := Hash(Some(m), Some(Active), None, None, None)])
  }

  /** The client enqueues the task, and a worker of `node` takes it. */
  lemma FirstAttempt(cfg: Config, clock: map<string, int>, node: string) returns (s: Sys)
    requires Within(cfg, clock) && node in clock
    ensures Reachable(cfg, s) && s.clock == clock && s.sweeps == map[] && s.beats == map[]
    ensures s.workers == map[0 := Worker(node, Task(cfg.name), clock[node] + LEASE_DURATION, true, None, None)]
    ensures s.q == Attempt(Task(cfg.name), Sec(clock[node] + LEASE_DURATION))
  {
    hide Within, Sec, Reachable;
    var s0 := Sys(EMPTY_QUEUE, clock, map[], map[], map[], map[], map[]);
    ReachInit(cfg, s0);
    var m := Task(cfg.name);
    var a0 := AClient(CEnqueue(m, 0));
    Reach(cfg, s0, a0);
    var s1 := Step(s0, a0);
    assert s1.q == EMPTY_QUEUE.(pending := ["x"], tasks := map["x" := Hash(Some(m), Some(Pending), Some(0), None, None)]);
    var a1 := ADequeue(node, 0, clock[node]);
    Reach(cfg, s1, a1);
    s := Step(s1, a1);
    DequeueOnly(s1.q, clock[node]);
    DequeuedState(s1, node, 0, clock[node]);
  }

  lemma ReachInit(cfg: Config, s: Sys)
    requires Init(cfg, s)
    ensures Reachable(cfg, s)
  {
    assert Allowed(cfg, s, []) && Run(s, []) == s;
  }

  lemma DequeueOnly(q: QueueState, now: int)
    requires !q.paused && q.pending == ["x"] && q.active == [] && q.lease == map[]
    requires q.tasks.Keys == {"x"} && q.tasks["x"].msg.Some?
    ensures Exec(q, CDequeue(now)) ==
      Out(q.(pending := [], active := ["x"], lease := map["x" := Sec(now + LEASE_DURATION)],
             tasks := map["x" := q.tasks["x"].(state := Some(Active), pendingSince := None)]),
          Message(q.tasks["x"].msg.value))
  {
    assert q.pending[..0] == [];
  }

  lemma Tick(cfg: Config, s: Sys, clock: map<string, int>) returns (t: Sys)
    requires Reachable(cfg, s) && Within(cfg, clock) && clock.Keys == s.clock.Keys
    requires forall n | n in clock :: s.clock[n] <= clock[n]
    ensures Reachable(cfg, t) && t == s.(clock := clock)
  {
    hide Reachable, Within;
    Reach(cfg, s, ATick(clock));
    t := Step(s, ATick(clock));
  }

  /** Worker w checks its lease, and its last write will be as late as it can. */
  lemma LastWrite(cfg: Config, s: Sys, w: nat) returns (t: Sys)
    requires Reachable(cfg, s) && LeaseValid(s, w) && s.workers[w].running && s.workers[w].write.None?
    ensures Reachable(cfg, t) && t == s.(workers := t.workers) && w in t.workers
    ensures t.workers[w].m == s.workers[w].m && t.workers[w].node == s.workers[w].node && t.workers[w].running
    ensures t.workers[w].write.Some? && t.workers[w].write.value.latest == s.workers[w].deadline + cfg.delivery
  {
    hide Reachable;
    var a := ACheck(w, Succeeded, s.workers[w].deadline + cfg.delivery);
    Reach(cfg, s, a);
    t := Step(s, a);
    CheckedState(s, w, Succeeded, a.latest);
  }

  /** Skew and delivery above 29 s: a recoverer ahead of the server steals before the last write lands. */
  lemma SkewSteals(cfg: Config)
    requires 0 <= cfg.skew && 0 <= cfg.delivery && cfg.skew + cfg.delivery > 29 * SECOND
    requires cfg.sweeping.Timed? ==> 0 <= cfg.sweeping.time
    ensures !Safe(cfg)
  {
    hide Reachable, Safe, Within, Step;
    var k := if cfg.skew > 29 * SECOND then 29 * SECOND + 1 else cfg.skew;
    var d := 29 * SECOND + 1 - k;
    var clock := map["a" := SECOND - 1, "b" := SECOND - 1 + k];
    var later := map["a" := 31 * SECOND - 1 + d, "b" := 31 * SECOND - 1 + d + k];
    TwoWithin(cfg, SECOND - 1, SECOND - 1 + k);
    TwoWithin(cfg, 31 * SECOND - 1 + d, 31 * SECOND - 1 + d + k);
    var s := FirstAttempt(cfg, clock, "a");
    s := LastWrite(cfg, s, 0);
    s := Tick(cfg, s, later);
    ListSteals(cfg, s, "b", 0);
  }

  // ---------------------------------------------------------------- late heartbeats

  /** The worker gives the task back and a worker of another server takes it. */
  lemma Handover(cfg: Config, s: Sys, first: string, second: string) returns (t: Sys)
    requires Reachable(cfg, s) && LeaseValid(s, 0) && first in s.clock && second in s.clock && 0 <= cfg.delivery
    requires exists d :: s.workers == map[0 := Worker(first, Task(cfg.name), d, true, None, None)]
    requires exists score :: s.q == Attempt(Task(cfg.name), score)
    ensures Reachable(cfg, t) && t.clock == s.clock && t.sweeps == s.sweeps && t.beats == s.beats
    ensures t.workers.Keys == {0, 1} && t.workers[0].m == Task(cfg.name)
    ensures t.workers[1] == Worker(second, Task(cfg.name), s.clock[second] + LEASE_DURATION, true, None, None)
    ensures t.q == Attempt(Task(cfg.name), Sec(s.clock[second] + LEASE_DURATION))
  {
    hide Within, Sec, Reachable, Step, Requeue, Exec;
    var m := Task(cfg.name);
    var s2 := GivenBack(cfg, s, first);
    ExecRequeue(s.q, m, s.clock[first]);
    RequeueOnly(s.q, m);
    var now := s.clock[second];
    var a := ADequeue(second, 1, now);
    Reach(cfg, s2, a);
    t := Step(s2, a);
    DequeueOnly(s2.q, now);
    DequeuedState(s2, second, 1, now);
  }

  lemma GivenBack(cfg: Config, s: Sys, first: string) returns (t: Sys)
    requires Reachable(cfg, s) && LeaseValid(s, 0) && first in s.clock && 0 <= cfg.delivery
    requires exists d :: s.workers == map[0 := Worker(first, Task(cfg.name), d, true, None, None)]
    ensures Reachable(cfg, t) && t == s.(q := t.q, workers := t.workers, ledger := t.ledger)
    ensures t.workers.Keys == {0} && t.workers[0].m == Task(cfg.name)
    ensures t.q == Exec(s.q, CRequeue(Task(cfg.name), s.clock[first])).q
  {
    hide Within, Reachable, Step, Exec;
    var a := ACheck(0, Aborted, s.workers[0].deadline);
    Reach(cfg, s, a);
    t := Step(s, a);
    CheckedState(s, 0, Aborted, a.latest);
    var b := AWrite(0, s.clock[first]);
    Reach(cfg, t, b);
    WrittenState(t, 0, s.clock[first]);
    t := Step(t, b);
  }

  lemma ExecRequeue(q: QueueState, m: TaskMessage, now: int)
    ensures Exec(q, CRequeue(m, now)) == Requeue(q, m)
  {
    hide Requeue;
  }

  lemma RequeueOnly(q: QueueState, m: TaskMessage)
    requires q.active == ["x"] && q.lease.Keys == {"x"} && q.pending == [] && m.id == "x" && q.tasks.Keys == {"x"}
    ensures Requeue(q, m).q == q.(active := [], lease := map[], pending := ["x"],
                                  tasks := map["x" := q.tasks["x"].(state := Some(Pending))])
  {
    assert LRem(["x"], "x") == [];
    assert q.lease - {"x"} == map[];
  }

  /** A beat for the finished first worker overwrites the score of the second one's lease. */
  lemma StaleBeat(cfg: Config, s: Sys, node: string) returns (t: Sys)
    requires Reachable(cfg, s) && !cfg.atomicBeat && node in s.clock && s.q.lease.Keys == {"x"}
    requires node in s.beats && s.beats[node].wids == {0} && s.clock[node] <= s.beats[node].reading + cfg.latency
    requires s.workers.Keys == {0, 1} && s.workers[0].m.id == "x"
    ensures Reachable(cfg, t) && t.clock == s.clock && t.sweeps == s.sweeps
    ensures t.q == s.q.(lease := map["x" := Sec(s.beats[node].reading + LEASE_DURATION)])
    ensures t.workers.Keys == s.workers.Keys && t.workers[1] == s.workers[1]
  {
    hide Reachable, Sec, Exec, Within, Step;
    var a := AExtend(node, {0});
    Reach(cfg, s, a);
    t := Step(s, a);
    ExtendedState(s, node, {0});
    assert IdsOf(s, {0}) == {"x"};
    ExtendEffect(s.q, {"x"}, s.beats[node].reading);
    OnlyX(s.q.lease, Sec(s.beats[node].reading + LEASE_DURATION));
  }

  lemma OnlyX(z: ZSet, score: int)
    requires z.Keys == {"x"}
    ensures Rescore(z, {"x"}, score) == map["x" := score]
  {
  }

  /** b is k behind the others; l later; and d after the lease that a gives out then has run down. */
  function ClockA(k: int, l: int): map<string, int> {
    map["a" := SECOND - 1 + k + l, "b" := SECOND - 1 + l, "r" := SECOND - 1 + k + l]
  }

  function ClockB(k: int, l: int, d: int): map<string, int> {
    map["a" := 31 * SECOND - 1 + k + l + d, "b" := 31 * SECOND - 1 + k + l + d, "r" := 31 * SECOND - 1 + 2 * k + l + d]
  }

  lemma ClockFacts(k: int, l: int)
    ensures ClockA(k, l).Keys == {"a", "b", "r"}
    ensures ClockA(k, l)["a"] == SECOND - 1 + k + l == ClockA(k, l)["r"] && ClockA(k, l)["b"] == SECOND - 1 + l
  {
  }

  lemma ClocksWithin(cfg: Config, k: int, l: int, d: int)
    requires 0 <= k <= cfg.skew
    ensures Within(cfg, ClockA(k, l)) && Within(cfg, ClockB(k, l, d))
  {
  }

  /**
   Twice the skew, the latency of a heartbeat and the delivery of a last write together above 29 s,
   when a beat may reach a worker that has finished: the late beat of a slow server lowers the score
   of another server's attempt.
   */
  lemma StaleBeatSteals(cfg: Config)
    requires 0 <= cfg.skew && 0 <= cfg.latency && 0 <= cfg.delivery && !cfg.atomicBeat
    requires 2 * cfg.skew + cfg.latency + cfg.delivery > 29 * SECOND
    requires cfg.sweeping.Timed? ==> 0 <= cfg.sweeping.time
    ensures !Safe(cfg)
  {
    hide Reachable, Safe, Within, ClockA, ClockB;
    var k := if 2 * cfg.skew > 29 * SECOND then 14_500_000_001 else cfg.skew;
    var needed := if 2 * cfg.skew > 29 * SECOND then 0 else 29 * SECOND + 1 - 2 * k;
    var l := if cfg.latency < needed then cfg.latency else needed;
    var d := needed - l;
    ClocksWithin(cfg, k, l, d);
    var s := BeatUnderWay(cfg, k, l);
    var s1 := Handover(cfg, s, "b", "a");
    var s2 := StaleBeat(cfg, s1, "b");
    LaterSteals(cfg, s2, k, l, d);
  }

  /** A worker of b has the task, and b has read its clock for a beat, l ago. */
  lemma BeatUnderWay(cfg: Config, k: int, l: int) returns (s: Sys)
    requires 0 <= k <= cfg.skew && 0 <= l <= 30 * SECOND
    ensures Reachable(cfg, s) && s.sweeps == map[] && s.beats == map["b" := Beat(SECOND - 1, {0})] && LeaseValid(s, 0)
    ensures s.workers == map[0 := Worker("b", Task(cfg.name), 31 * SECOND - 1, true, None, None)]
    ensures s.q == Attempt(Task(cfg.name), 30)
    ensures s.clock == ClockA(k, l) && s.clock.Keys == {"a", "b", "r"}
    ensures s.clock["a"] == SECOND - 1 + k + l && s.clock["b"] == SECOND - 1 + l
  {
    hide Reachable, Within, Step, ClockA, ClockB, Attempt, Task;
    ClockFacts(k, 0);
    ClockFacts(k, l);
    ClocksWithin(cfg, k, 0, 0);
    ClocksWithin(cfg, k, l, 0);
    s := FirstAttempt(cfg, ClockA(k, 0), "b");
    var a := ARead("b", {0});
    ReadState(s, "b", {0});
    Reach(cfg, s, a);
    s := Step(s, a);
    s := Tick(cfg, s, ClockA(k, l));
  }

  lemma LaterSteals(cfg: Config, s: Sys, k: int, l: int, d: int)
    requires 0 <= k && 0 <= l && 0 <= d <= cfg.delivery && 2 * k + l + d > 29 * SECOND
    requires cfg.sweeping.Timed? ==> 0 <= cfg.sweeping.time
    requires Reachable(cfg, s) && s.clock == ClockA(k, l) && Within(cfg, ClockB(k, l, d)) && s.sweeps == map[]
    requires 1 in s.workers && s.workers[1] == Worker("a", Task(cfg.name), 31 * SECOND - 1 + k + l, true, None, None)
    requires s.q.active == ["x"] && s.q.lease == map["x" := 30]
    ensures !Safe(cfg)
  {
    hide Reachable, Safe, Within, Step;
    var t := LastWrite(cfg, s, 1);
    t := Tick(cfg, t, ClockB(k, l, d));
    ListSteals(cfg, t, "r", 1);
  }

  // ---------------------------------------------------------------- overlapping sweeps

  lemma OnlyDue(z: ZSet, score: int, max: int, n: int)
    requires z == map["x" := score] && score <= max && n != 0
    ensures RangeByScore(z, max, n) == ["x"]
  {
    var d := Due(z, max);
    assert d == z;
    assert Ranked(d) == ["x"] by {
      assert |Ranked(d)| == 1 && Ranked(d)[0] in d;
    }
  }

  /** An expired first attempt of a worker of b, seen by clocks at which it may be listed. */
  ghost predicate Overdue(cfg: Config, s: Sys) {
    && Reachable(cfg, s) && s.clock.Keys == {"a", "b"} && s.workers.Keys == {0} && s.beats == map[]
    && 60 * SECOND <= s.clock["a"] && 60 * SECOND <= s.clock["b"]
  }

  lemma ListOne(cfg: Config, s: Sys, node: string) returns (t: Sys)
    requires Overdue(cfg, s) && !cfg.sweeping.Exclusive? && node in s.clock && node !in s.sweeps
    requires s.q == Attempt(Task(cfg.name), 30)
    ensures Overdue(cfg, t) && t.clock == s.clock && t.q == s.q
    ensures t.sweeps == s.sweeps[node := Sweep(s.clock[node], [Task(cfg.name)])]
  {
    hide Reachable, Exec, LeaseExpired, Sec;
    var a := AList(node, s.clock[node]);
    Reach(cfg, s, a);
    t := Step(s, a);
    ListReply(s.q, s.clock[node]);
    SecAtLeast(s.clock[node] - 30 * SECOND, 30);
    ListedOne(s.q, Task(cfg.name), Sec(s.clock[node] - 30 * SECOND));
  }

  lemma SecAtLeast(t: int, n: int)
    requires n * SECOND <= t
    ensures n <= Sec(t)
  {
  }

  lemma ListedOne(q: QueueState, m: TaskMessage, cutoff: int)
    requires q == Attempt(m, 30) && 30 <= cutoff
    ensures LeaseExpired(q, cutoff) == [m]
  {
    hide RangeByScore, Ranked;
    OnlyDue(q.lease, 30, cutoff, -1);
    assert Stored(q.tasks, ["x"]) == [m] + Stored(q.tasks, []);
  }

  function Delay(cfg: Config): int {
    if cfg.sweeping.Timed? then cfg.sweeping.delay else 0
  }

  function Time(cfg: Config): int {
    if cfg.sweeping.Timed? then cfg.sweeping.time else 0
  }

  lemma MoveOne(cfg: Config, s: Sys, node: string, at: int) returns (t: Sys)
    requires Overdue(cfg, s) && Open(cfg, s, node) && s.q == Attempt(Task(cfg.name), 30)
    requires s.sweeps[node].left == [Task(cfg.name)] && s.sweeps[node].started <= at <= s.clock[node]
    ensures Overdue(cfg, t) && t.clock == s.clock && t.sweeps == s.sweeps[node := s.sweeps[node].(left := [])]
    ensures var m := Failing(Task(cfg.name), "lease expired", true, at);
            t.q == EMPTY_QUEUE.(retry := map["x" := Sec(at + Delay(cfg))],
                                tasks := map["x" := Hash(Some(m), Some(Retry), None, None, None)])
  {
    hide Reachable, Within, Sec;
    var a := AMove(node, Failed("lease expired", false, true, Delay(cfg), 0), at);
    Reach(cfg, s, a);
    t := Step(s, a);
    RetryOnly(s.q, Task(cfg.name), Sec(at + Delay(cfg)), at);
    assert [Task(cfg.name)][1..] == [];
  }

  lemma RetryOnly(q: QueueState, m: TaskMessage, at: int, now: int)
    requires q == Attempt(m, 30) && m.id == "x"
    ensures var m' := Failing(m, "lease expired", true, now);
            RetryTask(q, m, at, "lease expired", true, now) ==
            Out(EMPTY_QUEUE.(retry := map["x" := at], tasks := map["x" := Hash(Some(m'), Some(Retry), None, None, None)]), Ok)
  {
    assert LRem(["x"], "x") == [];
    assert q.lease - {"x"} == map[];
  }

  lemma RunAgain(cfg: Config, s: Sys, at: int) returns (t: Sys)
    requires Overdue(cfg, s) && at <= Sec(s.clock["b"])
    requires s.q.retry == map["x" := at] && s.q.tasks.Keys == {"x"} && s.q.tasks["x"].msg.Some? && s.q.tasks["x"].msg.value.id == "x"
    requires s.q.pending == [] == s.q.active && s.q.lease == map[] && !s.q.paused
    ensures Reachable(cfg, t) && t.clock == s.clock && t.sweeps == s.sweeps
    ensures Live(t, 1) && t.workers[1].m.id == "x"
  {
    hide Reachable, Within, Exec, Forward, Sec;
    var now := s.clock["b"];
    var a := AForward("b", FromRetry, now);
    Reach(cfg, s, a);
    var s1 := Step(s, a);
    ExecForward(s.q, FromRetry, now);
    ForwardOnly(s.q, at, now);
    var b := ADequeue("b", 1, now);
    Reach(cfg, s1, b);
    t := Step(s1, b);
    DequeueOnly(s1.q, now);
    DequeuedState(s1, "b", 1, now);
  }

  lemma ForwardOnly(q: QueueState, at: int, now: int)
    requires q.retry == map["x" := at] && at <= Sec(now) && q.tasks.Keys == {"x"} && q.pending == []
    ensures var q' := Forward(q, FromRetry, now, FORWARD_BATCH).q;
            && q' == q.(retry := q'.retry, tasks := q'.tasks, pending := ["x"])
            && q'.tasks.Keys == {"x"} && q'.tasks["x"].msg == q.tasks["x"].msg
  {
    hide RangeByScore, MarkPending;
    OnlyDue(q.retry, at, Sec(now), FORWARD_BATCH);
    MarkOne(q.tasks, now);
    var ids := ReadyIds(q, FromRetry, now, FORWARD_BATCH);
    assert Forward(q, FromRetry, now, FORWARD_BATCH).q == MoveToPending(q, FromRetry, ids, now);
    assert ids == ["x"] && Reverse(ids) + q.pending == ["x"];
  }

  lemma MarkOne(tasks: map<string, Hash>, now: int)
    requires tasks.Keys == {"x"}
    ensures var t := MarkPending(tasks, Elems(["x"]), now);
            t.Keys == {"x"} && t["x"].msg == tasks["x"].msg
  {
    assert Elems(["x"]) == {"x"};
  }

  /**
   Recoverer b, whose clock is behind, lists the expired task, works out when to retry it, and makes
   the move as late as it may.  By then a has listed it too.  The task falls due and runs again at b,
   whose clock is ahead in the end, and a moves it too.
   */
  lemma OverlapSteals(cfg: Config)
    requires 0 <= cfg.skew && !cfg.sweeping.Exclusive?
    requires cfg.sweeping.Timed? ==>
      0 <= cfg.sweeping.time && 0 <= cfg.sweeping.delay < 2 * cfg.sweeping.time + 2 * cfg.skew + SECOND
    ensures !Safe(cfg)
  {
    hide Reachable, Safe, Delay, Time;
    var d, time := Delay(cfg), Time(cfg);
    TimesAre(cfg);
    DueAt(d);
    var base := 61 * SECOND - 1 - d % SECOND;
    var due := 60 + d / SECOND;
    var b := if base + time < due * SECOND then due * SECOND else base + time;
    var a := if base + time + cfg.skew < b - cfg.skew then b - cfg.skew else base + time + cfg.skew;
    SecAtLeast(b, due);
    OverlapAt(cfg, base, due, a, b);
  }

  lemma TimesAre(cfg: Config)
    ensures Delay(cfg) == if cfg.sweeping.Timed? then cfg.sweeping.delay else 0
    ensures Time(cfg) == if cfg.sweeping.Timed? then cfg.sweeping.time else 0
  {
  }

  /** b starts at `base` on its clock; in the end the clocks are at `a` and `b`. */
  lemma OverlapAt(cfg: Config, base: int, due: int, a: int, b: int)
    requires 0 <= cfg.skew && !cfg.sweeping.Exclusive? && 60 * SECOND <= base && 0 <= Time(cfg)
    requires Sec(base + Delay(cfg)) == due <= Sec(b)
    requires base + Time(cfg) <= b && base + Time(cfg) + cfg.skew <= a && -cfg.skew <= a - b <= cfg.skew
    requires cfg.sweeping.Timed? ==> a <= base + Time(cfg) + cfg.skew + cfg.sweeping.time
    ensures !Safe(cfg)
  {
    hide Reachable, Safe, Delay, Sec, Overdue, Within, Time;
    TimesAre(cfg);
    var last := map["a" := a, "b" := b];
    TwoWithin(cfg, a, b);
    var s := Listed(cfg, base);
    s := MoveOne(cfg, s, "b", base);
    OverdueReachable(cfg, s);
    var t := Tick(cfg, s, last);
    StillOverdue(cfg, s, t);
    t := RunAgain(cfg, t, due);
    MoveSteals(cfg, t, "a", 1);
  }

  lemma TwoWithin(cfg: Config, a: int, b: int)
    requires 0 <= cfg.skew && -cfg.skew <= a - b <= cfg.skew
    ensures Within(cfg, map["a" := a, "b" := b])
  {
  }

  lemma OverdueReachable(cfg: Config, s: Sys)
    requires Overdue(cfg, s)
    ensures Reachable(cfg, s) && s.clock.Keys == {"a", "b"}
  {
    hide Reachable;
  }

  lemma StillOverdue(cfg: Config, s: Sys, t: Sys)
    requires Overdue(cfg, s) && Reachable(cfg, t) && t == s.(clock := t.clock) && t.clock.Keys == s.clock.Keys
    requires forall n | n in s.clock :: s.clock[n] <= t.clock[n]
    ensures Overdue(cfg, t)
  {
    hide Reachable;
  }

  /** Both recoverers have the expired task on their lists, and b's time is nearly over. */
  lemma Listed(cfg: Config, base: int) returns (s: Sys)
    requires 0 <= cfg.skew && !cfg.sweeping.Exclusive? && 60 * SECOND <= base && 0 <= Time(cfg)
    ensures Overdue(cfg, s) && s.clock == map["a" := base + Time(cfg) + cfg.skew, "b" := base + Time(cfg)]
    ensures s.q == Attempt(Task(cfg.name), 30)
    ensures s.sweeps == map["a" := Sweep(base + Time(cfg) + cfg.skew, [Task(cfg.name)]), "b" := Sweep(base, [Task(cfg.name)])]
  {
    hide Reachable, Within, Time, Overdue;
    TwoWithin(cfg, 0, 0);
    TwoWithin(cfg, base + cfg.skew, base);
    TwoWithin(cfg, base + Time(cfg) + cfg.skew, base + Time(cfg));
    s := FirstAttempt(cfg, map["a" := 0, "b" := 0], "b");
    s := Tick(cfg, s, map["a" := base + cfg.skew, "b" := base]);
    assert Overdue(cfg, s) by { IsOverdue(cfg, s); }
    s := ListOne(cfg, s, "b");
    OverdueReachable(cfg, s);
    var t := Tick(cfg, s, map["a" := base + Time(cfg) + cfg.skew, "b" := base + Time(cfg)]);
    StillOverdue(cfg, s, t);
    s := ListOne(cfg, t, "a");
  }

  lemma IsOverdue(cfg: Config, s: Sys)
    requires Reachable(cfg, s) && s.clock.Keys == {"a", "b"} && s.workers.Keys == {0} && s.beats == map[]
    requires 60 * SECOND <= s.clock["a"] && 60 * SECOND <= s.clock["b"]
    ensures Overdue(cfg, s)
  {
    hide Reachable;
  }

  lemma DueAt(d: int)
    requires 0 <= d
    ensures var base := 61 * SECOND - 1 - d % SECOND; var due := 60 + d / SECOND;
            && Sec(base + d) == due && due <= Sec(due * SECOND) && (due * SECOND <= base ==> due <= Sec(base))
            && due * SECOND == base + d - (SECOND - 1) && 60 * SECOND <= base
  {
  }

  // ---------------------------------------------------------------- the exact condition

  /**
   Fencing holds over every run if and only if
   - the clock skew and the delivery of a last write, with the skew again and the latency of a heartbeat
     when a beat can reach a worker that no longer holds its task, are at most 29 s together, and
   - recovery sweeps do not overlap, or twice the time that one may take, twice the skew and a second
     are no more than the shortest retry delay.
   */
  lemma FencingExactly(cfg: Config)
    requires 0 <= cfg.skew && 0 <= cfg.latency && 0 <= cfg.delivery
    requires cfg.sweeping.Timed? ==> 0 <= cfg.sweeping.time && 0 <= cfg.sweeping.delay
    ensures Safe(cfg) <==>
      && (if cfg.atomicBeat then cfg.skew else 2 * cfg.skew + cfg.latency) + cfg.delivery <= 29 * SECOND
      && match cfg.sweeping
         case Exclusive => true
         case Timed(time, delay) => 2 * time + 2 * cfg.skew + SECOND <= delay
         case Free => false
  {
    hide Safe;
    if Tolerable(cfg) {
      TolerableIsSafe(cfg);
    } else if cfg.skew + Slack(cfg) + cfg.delivery <= 29 * SECOND {
      OverlapSteals(cfg);
    } else if cfg.atomicBeat {
      SkewSteals(cfg);
    } else {
      StaleBeatSteals(cfg);
    }
  }
}
