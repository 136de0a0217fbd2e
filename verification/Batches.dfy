/** Moving or deleting in batches ends where one unbounded step would (forwardAll, DeleteExpiredCompletedTasks). */
module Batches {
  import opened Base
  import opened SortedSets
  import opened Queues
  import opened Runs

  function Min(a: int, b: int): int {
    if a < b then a else b
  }

  /** One unbounded move of everything that is ready. */
  function ForwardEverything(q: QueueState, src: Source, now: int): QueueState {
    MoveToPending(q, src, ReadyIds(q, src, now, -1), now)
  }

  /** Batches that n tasks fill, the last one perhaps in part: ceil(n / batch). */
  function Filled(n: nat, batch: nat): nat
    requires batch > 0
  {
    (n + batch - 1) / batch
  }

  lemma MoveNone(q: QueueState, src: Source, now: int)
    ensures MoveToPending(q, src, [], now) == q
  {
    assert MarkPending(q.tasks, {}, now) == q.tasks;
    assert SourceSet(q, src) - {} == SourceSet(q, src);
    assert Elems([]) == {};
  }

  lemma MarkMore(tasks: map<string, Hash>, a: set<string>, b: set<string>, now: int)
    ensures MarkPending(MarkPending(tasks, a, now), b, now) == MarkPending(tasks, a + b, now)
  {
  }

  /** Moving a list is moving its front and then its back. */
  lemma MoveTwice(q: QueueState, src: Source, a: seq<string>, b: seq<string>, now: int)
    ensures MoveToPending(MoveToPending(q, src, a, now), src, b, now) == MoveToPending(q, src, a + b, now)
  {
    hide MarkPending, Reverse;
    ReverseConcat(a, b);
    MarkMore(q.tasks, Elems(a), Elems(b), now);
    assert Elems(a + b) == Elems(a) + Elems(b);
    var z := SourceSet(q, src);
    assert z - Elems(a) - Elems(b) == z - Elems(a + b);
    assert Reverse(b) + (Reverse(a) + q.pending) == Reverse(a + b) + q.pending;
  }

  /** One more member moved by forwardCmd. */
  function MovedOne(p: QueueState, src: Source, id: string, now: int): QueueState {
    WithSource(p, src, SourceSet(p, src) - {id}).(
      pending := [id] + p.pending,
      tasks := p.tasks[id := HashOf(p.tasks, id).(state := Some(Pending), pendingSince := Some(now))])
  }

  lemma MoveOneMore(q: QueueState, src: Source, ids: seq<string>, id: string, now: int)
    ensures MoveToPending(q, src, ids + [id], now) == MovedOne(MoveToPending(q, src, ids, now), src, id, now)
  {
    hide MoveToPending, MovedOne;
    var p := MoveToPending(q, src, ids, now);
    MoveTwice(q, src, ids, [id], now);
    MoveSingle(p, src, id, now);
  }

  lemma MoveSingle(p: QueueState, src: Source, id: string, now: int)
    ensures MoveToPending(p, src, [id], now) == MovedOne(p, src, id, now)
  {
    assert Elems([id]) == {id};
    SingletonReverse(id);
    assert MarkPending(p.tasks, {id}, now) ==
           p.tasks[id := HashOf(p.tasks, id).(state := Some(Pending), pendingSince := Some(now))];
  }

  /** A batch is the front of everything ready, and leaves the rest of it ready. */
  lemma NextBatch(q: QueueState, src: Source, now: int, limit: nat)
    ensures var all := ReadyIds(q, src, now, -1);
            var b := ReadyIds(q, src, now, limit);
            && b == all[..Min(limit, |all|)]
            && ReadyIds(MoveToPending(q, src, b, now), src, now, -1) == all[Min(limit, |all|)..]
  {
    hide RangeByScore, Reverse, MarkPending;
    var z := SourceSet(q, src);
    RangeAfterBatch(z, Sec(now), limit);
    BatchSize(z, Sec(now), limit);
    var b := ReadyIds(q, src, now, limit);
    assert SourceSet(MoveToPending(q, src, b, now), src) == z - Elems(b);
  }

  lemma BatchSize(z: ZSet, max: int, limit: nat)
    ensures |RangeByScore(z, max, limit)| == Min(limit, |RangeByScore(z, max, -1)|)
  {
    hide Ranked;
  }

  lemma MoveMore(q: QueueState, src: Source, all: seq<string>, moved: nat, k: nat, now: int)
    requires moved + k <= |all|
    ensures MoveToPending(MoveToPending(q, src, all[..moved], now), src, all[moved..][..k], now)
            == MoveToPending(q, src, all[..moved + k], now)
    ensures all[moved..][k..] == all[moved + k..]
  {
    hide MoveToPending;
    MoveTwice(q, src, all[..moved], all[moved..][..k], now);
    assert all[..moved] + all[moved..][..k] == all[..moved + k];
  }

  /** Draining the scheduled set leaves the ready retries as they are. */
  lemma OtherSourceSame(q: QueueState, now: int)
    ensures ReadyIds(ForwardEverything(q, FromScheduled, now), FromRetry, now, -1) == ReadyIds(q, FromRetry, now, -1)
  {
    hide RangeByScore, Reverse, MarkPending;
  }

  /**
   What a complete sweep of forwardAll does to pending: what was there goes first, then the ready
   scheduled tasks, then the ready retries, each in (score, id) order; nothing else has moved.
   */
  lemma ForwardOrder(q: QueueState, now: int)
    ensures var a := ReadyIds(q, FromScheduled, now, -1);
            var b := ReadyIds(q, FromRetry, now, -1);
            var q' := ForwardEverything(ForwardEverything(q, FromScheduled, now), FromRetry, now);
            && Fifo(q') == Fifo(q) + a + b
            && InOrder(q.scheduled, a) && InOrder(q.retry, b)
            && (forall id :: id in q'.scheduled <==> id in q.scheduled && q.scheduled[id] > Sec(now))
            && (forall id :: id in q'.retry <==> id in q.retry && q.retry[id] > Sec(now))
  {
    hide RangeByScore, Reverse, MarkPending;
    var a, b := ReadyIds(q, FromScheduled, now, -1), ReadyIds(q, FromRetry, now, -1);
    OtherSourceSame(q, now);
    FullRange(q.scheduled, Sec(now));
    FullRange(q.retry, Sec(now));
    ReverseConcat(Reverse(a), q.pending);
    ReverseTwice(a);
    ReverseConcat(Reverse(b), Reverse(a) + q.pending);
    ReverseTwice(b);
    RangeInOrder(q.scheduled, Sec(now));
    RangeInOrder(q.retry, Sec(now));
  }

  lemma RangeInOrder(z: ZSet, max: int)
    ensures InOrder(z, RangeByScore(z, max, -1))
  {
    hide Ranked;
    var d := Due(z, max);
    RankedInOrder(d);
    var r := Ranked(d);
    forall i, j | 0 <= i < j < |r| ensures Before(z, r[i], r[j]) {
      assert Before(d, r[i], r[j]);
    }
  }

  // ---------------------------------------------------------------- deleting

  lemma PurgeNone(q: QueueState)
    ensures Purge(q, {}) == q
  {
    assert q.completed - {} == q.completed && q.tasks - {} == q.tasks;
  }

  lemma PurgeTwice(q: QueueState, a: set<string>, b: set<string>)
    ensures Purge(Purge(q, a), b) == Purge(q, a + b)
  {
    assert q.completed - a - b == q.completed - (a + b);
    assert q.tasks - a - b == q.tasks - (a + b);
  }

  /** The tasks that have expired are those whose second has come; a batch is the front of them, in (score, id) order. */
  lemma ExpiredBatch(q: QueueState, now: int, batch: int)
    ensures var all := ExpiredIds(q, now, -1); var b := ExpiredIds(q, now, batch);
            && (forall id :: id in all <==> id in q.completed && q.completed[id] <= Sec(now))
            && InOrder(q.completed, all)
            && b == (if batch < 0 then all else all[..Min(batch, |all|)])
  {
    hide RangeByScore;
    FullRange(q.completed, Sec(now));
    RangeInOrder(q.completed, Sec(now));
    if batch >= 0 {
      RangeAfterBatch(q.completed, Sec(now), batch);
      BatchSize(q.completed, Sec(now), batch);
    } else {
      NoLimit(q.completed, Sec(now), batch);
    }
  }

  lemma NoLimit(z: ZSet, max: int, n: int)
    requires n < 0
    ensures RangeByScore(z, max, n) == RangeByScore(z, max, -1)
  {
    hide Ranked;
  }

  /** Deleting all expired tasks: entry and hash of exactly those whose second has come. */
  lemma ExpiryIsComplete(q: QueueState, now: int)
    ensures var q' := DeleteExpired(q, now, -1).q;
            && (forall id :: id in q'.completed <==> id in q.completed && q.completed[id] > Sec(now))
            && (forall id | id in q'.completed :: q'.completed[id] == q.completed[id])
            && (forall id :: id in q'.tasks <==> id in q.tasks && !(id in q.completed && q.completed[id] <= Sec(now)))
            && (forall id | id in q'.tasks :: q'.tasks[id] == q.tasks[id])
            && q' == q.(completed := q'.completed, tasks := q'.tasks)
  {
    hide ExpiredIds;
    ExpiredBatch(q, now, -1);
  }

  lemma ExpiredAfterPurge(q: QueueState, gone: set<string>, now: int, batch: int)
    ensures Elems(ExpiredIds(Purge(q, gone), now, batch)) <= Elems(ExpiredIds(q, now, -1)) - gone
    ensures Elems(ExpiredIds(Purge(q, gone), now, -1)) == Elems(ExpiredIds(q, now, -1)) - gone
    ensures ExpiredIds(Purge(q, gone), now, batch) == [] && batch != 0 ==> ExpiredIds(Purge(q, gone), now, -1) == []
    ensures batch == 0 ==> ExpiredIds(Purge(q, gone), now, batch) == []
  {
    hide RangeByScore;
    FullRange(q.completed, Sec(now));
    FullRange(q.completed - gone, Sec(now));
    LimitedRange(q.completed - gone, Sec(now), batch);
  }

  /** One more batch of deletions: how it adds up, shrinks the set, and when it is the last. */
  lemma ExpiredAfter(q: QueueState, gone: set<string>, now: int, batch: int)
    requires gone <= Elems(ExpiredIds(q, now, -1))
    ensures var p := Purge(q, gone); var b := ExpiredIds(p, now, batch); var gone' := gone + Elems(b);
            && Purge(p, Elems(b)) == Purge(q, gone') && gone' <= Elems(ExpiredIds(q, now, -1))
            && (batch == 0 ==> b == [])
            && (b != [] ==> |Purge(p, Elems(b)).completed| < |p.completed|)
            && (b == [] && batch != 0 ==> gone == Elems(ExpiredIds(q, now, -1)))
  {
    hide ExpiredIds, Purge;
    var p := Purge(q, gone);
    var b := ExpiredIds(p, now, batch);
    ExpiredAfterPurge(q, gone, now, batch);
    PurgeTwice(q, gone, Elems(b));
    if b != [] { PurgeShrinks(p, now, batch); }
  }

  lemma PurgeShrinks(p: QueueState, now: int, batch: int)
    requires ExpiredIds(p, now, batch) != []
    ensures |Purge(p, Elems(ExpiredIds(p, now, batch))).completed| < |p.completed|
  {
    hide RangeByScore;
    var b := ExpiredIds(p, now, batch);
    Shrinks(p.completed, Elems(b), b[0]);
  }

  lemma Shrinks(z: ZSet, ids: set<string>, id: string)
    requires id in z && id in ids
    ensures |z - ids| < |z|
  {
    assert id !in (z - ids).Keys;
    SubsetSize((z - ids).Keys, z.Keys);
  }

  lemma LimitedRange(z: ZSet, max: int, n: int)
    ensures n == 0 ==> RangeByScore(z, max, n) == []
    ensures n != 0 && RangeByScore(z, max, n) == [] ==> RangeByScore(z, max, -1) == []
  {
    hide Ranked;
  }
}
