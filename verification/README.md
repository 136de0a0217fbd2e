# TitanQueue: broker and lease protocol

TitanQueue is a task queue on Redis. Clients put tasks into queues. Servers take tasks from
them, run a worker for each, and keep a *lease* on it with heartbeats. A recoverer takes back the
tasks of workers that have died. All shared state is changed by Lua scripts, each of which is one
atomic step on the lists, sorted sets, hashes and locks of one queue.

This project models that broker and the protocol around it, and proves what a user relies on:

- **Broker.** The scripts check only part of what they rely on. `Queues.Inv` is the invariant
  behind them, every script keeps it, and with it no script can stop half way (`Invariant`).
  Over every run of scripts no task is lost or duplicated, completed tasks are retained for as long as
  promised, unique tasks are unique, pending is first in first out (`Runs`), the archive is
  bounded (`Archiving`), and working in batches makes no difference (`Batches`).
- **Leases.** A worker holds a lease with full precision on its own clock. Redis holds the same
  lease as a score in whole seconds, and recoverers on other clocks wait 30 s before they act
  on it. While its local lease is valid, and until a write that it has decided on under it has
  landed, a worker is the only one with the task, and its writes land (`Fencing`). The conditions for
  this are exact: `Limits.FencingExactly` gives the largest skew, latencies and duration of overlapping
  sweeps, and shows by concrete runs that it fails beyond. From fencing it follows that messages stay intact and attempts are counted right
  (`Attempts`).
- **Server.** The recovery sweep (`Recovery`), worker and heartbeat (`Workers`), local lease
  (`Leases`), choice of queues (`QueueChoice`), tokens and shutdown (`Shutdown`), retry delay
  (`Backoff`), client calls (`Client`) and task keys (`Keys`).

Code that changes state in place is a class or a method with loops (`Broker.RedisQueue`,
`Leases.Lease`, `Workers.Heartbeater`, `Recovery.Recoverer`, `QueueChoice.QueuePicker`), proved
equal to a specification function (`Queues.Exec`, `Leases.Apply`, `Workers.Extended`,
`Workers.Beaten`, `Recovery.Pass`). The theorems about runs are about these functions.
`Protocol.RunIsTrace`, `Recovery.PassIsProtocolRun`, `Workers.BeatIsProtocolRun` and
`Workers.FinishIsProtocolRun` connect the protocol with them.

| file | content |
|---|---|
| Base.dfy, SortedSets.dfy | messages, seconds, sorted sets ordered by (score, id) |
| Queues.dfy, Broker.dfy | effect of every script; the same scripts as methods of a class |
| Invariant.dfy, Effects.dfy, Runs.dfy | the invariant, what a script does and leaves alone, all runs |
| Batches.dfy, Archiving.dfy | batched moves and deletions, trimming of the archive |
| Protocol.dfy, Fencing.dfy, Limits.dfy, Attempts.dfy | servers, clocks, leases and recoverers as a state machine |
| Leases.dfy, Workers.dfy, Recovery.dfy, Shutdown.dfy, QueueChoice.dfy, Backoff.dfy | the parts of a server |
| Client.dfy, Keys.dfy | options, messages and calls of a client; task keys |

`dafny verify dfyconfig.toml` checks everything.

## Where the code and its documentation differ

The model follows the code.

- ARCHITECTURE.md:112 says that expired tasks go back to pending. The recoverer moves them to retry or
  to the archive (recoverer.go:96-103; `Recovery.SweepIsComplete`).
- ARCHITECTURE.md:110 speaks of a heartbeat every 10 s, server.go:387 sets 5 s. No theorem depends on
  the interval.
- The comment of MarkAsComplete (internal/rdb/rdb.go:406) and that of Unique (client.go:154-157) say
  that success frees the uniqueness lock. It does so if and only if the task is not retained
  (`Workers.LockAfterSuccess`).
- A unique call that is refused because its id exists keeps the lock it has just taken
  (`Runs.RefusedCallEffect` gives the exact condition).
- maxArchiveSize is 10000, but `ZRANGE 0 -10000` is inclusive, so 9999 entries stay
  (`Archiving.TrimKeepsTheHighest`). A task can be trimmed by its own Archive call
  (`Archiving.NewEntrySurvives` gives the exact condition, `Archiving.SelfTrim` an instance); its hash
  is then written without a place, and the id is lost to clients for good.
- The client means every message to have a timeout or a deadline; `Client.NeitherTimeoutNorDeadline` says
  exactly when it has neither.
- Any name that is not blank is accepted for a queue, but names with a closing brace can share task keys
  (`Keys.TaskKeysCollide` gives the exact condition).
- The retry delay overflows from the 310th failure on (`Backoff.FitsInt64`).
- The 30 s of grace for clock skew (recoverer.go:89) come to 29 s, as scores lose up to a second, and the
  delivery of a last write takes part of them. A beat that is under way when its worker finishes can
  reach the next attempt, so that twice the skew and the latency of a beat must fit in as well. A
  recoverer works out the time of a retry before the call (recoverer.go:106-108), possibly when its
  sweep begins. So with overlapping sweeps, and the shortest default retry delay of 15 s, twice the
  time of a sweep and twice the skew must come to no more than 14 s (`Limits.FencingExactly`).
- The heartbeater keeps workers by bare task id, so the end of an old attempt stops the beats for a newer
  one of the same task on the same server (`Workers.BeatenForExactly` gives the exact condition).

## Assumptions

- A script is atomic. A crash is a process that takes no further step, and may come between any two
  steps. A call that fails without effect is one that is not made: a worker whose last write fails ends
  like one that crashes (ACrash), and a recoverer whose move fails goes on with the next task (ASkip).
  A call whose answer is lost has been made; a task dequeued that way has a worker that crashes at once.
- A worker checks its lease (ACheck) and its last write takes effect later (AWrite), at most
  `Config.delivery` after the end of the lease that was checked. The code bounds the call by a context
  whose deadline is the end of the lease (processor.go:263), so this is the time from the client's
  sending the call to its execution in Redis.
- The protocol is stated for one queue. Queues share no task keys when their names have no closing brace
  (`Keys.BracelessQueuesAreSeparate`). The ids in flight on one server are distinct across queues, as
  `Heartbeater.workers` is keyed by id.
- `Config.sweeping`: recovery sweeps of several servers do not overlap (Exclusive), or they overlap but
  each makes its moves within a time limit by its own clock, retries have a least delay, and no client's
  task is accepted under an id that is on the list of such a sweep (Timed), or nothing is known (Free).
- A beat is a clock reading (ARead), a write of scores in Redis made from it (AExtend), and a later reset
  of each local lease (AReset), with anything in between. `Config.latency` bounds the time from reading
  to write. With `Config.atomicBeat` the scores reach only workers that may still write; without it, any
  worker that the server ever had, which covers one that has written its result and not yet been removed
  from the heartbeater's map.
- The other clock readings are as old as the code lets them be: any age for dequeuing, listing, forwarding
  and the janitor, since the check of the lease for a last write, and since the start of the sweep for a
  recoverer's move. A call that reads the clock twice (the time of a retry, and that of the failure)
  has one reading here.
- Clocks do not run backwards. Apart from that, only the skew bound restricts them.

## Model

| member | source | states |
|---|---|---|
| Invariant.StepKeepsInv | internal/rdb/rdb.go:97-942 | Every script, with any arguments and from any state that satisfies the invariant, keeps it: a place implies a hash with the matching state and a message of that id and queue, no list repeats an id, and the lease set is exactly the active list |
| Invariant.OnePlace | internal/rdb/rdb.go:97-107 | Under the invariant an id stands in at most one of the six places and at most once, its hash holds the state of that place, and it is leased if and only if it is active |
| Runs.RunKeepsInv | internal/rdb/rdb.go:97-942 | Every run of broker calls, with any arguments and in any order, keeps the invariant, and with it one place for every id |
| Invariant.AllOrNothing | internal/rdb/rdb.go:284-461 | Done, MarkAsComplete, Requeue, Retry and Archive succeed if and only if the task is active; otherwise they answer NOT FOUND and change nothing, so the later error exits are unreachable |
| Invariant.DequeueDelivers | internal/rdb/rdb.go:226-237 | Dequeue answers nothing exactly when the queue is paused or empty, and then changes nothing; otherwise it returns the stored message of the id it pops, which no attempt held, and leases it |
| Effects.StepFrame | internal/rdb/rdb.go:97-942 | A broker call leaves place, score, lease and hash of every task it is not about exactly as they were |
| Effects.StepGlobals | internal/rdb/rdb.go:97-942 | Only unique calls and Done touch locks, and only pausing and resuming the pause flag |
| Effects.ClientReply | internal/rdb/rdb.go:97-171 | What a client is told, for every call and state: refused while the lock of its key has not expired, else while its id has a hash, else accepted; the lock is taken, for its lifetime, before the id is looked at |
| Effects.ClientTarget | internal/rdb/rdb.go:97-171 | A task that is accepted had no hash and gets the one place it asked for, on the left of pending or scheduled with the given score, with the message as sent, the time or none, and the unique key or none; a refused call changes locks at most |
| Effects.WorkerTarget | internal/rdb/rdb.go:284-663 | Done removes the task; completion sets CompletedAt, places it until now + retention; a requeue keeps the message and puts it on the right of pending; a retry gets the given time, error, second, and one more retry exactly if it counts; all else in message and hash stays |
| Effects.DequeueEffect | internal/rdb/rdb.go:226-273 | Dequeue field by field: the right end of pending becomes active with pending_since cleared and a lease of 30 s, and its message is returned; nothing else changes, and nothing at all if the queue is paused or empty |
| SortedSets.LRemKeepsOrder | internal/rdb/rdb.go:284-287 | Removing an id from a list leaves the others, in their order |
| Effects.ArchiveTarget | internal/rdb/rdb.go:687-765 | Archive ends the attempt, records error and second without counting a retry, gives the entry this second, and removes other tasks only from the archive, hashes included |
| Effects.ForwardTarget | internal/rdb/rdb.go:785-795 | Forwarding moves a ready task from its delayed set to pending, with the time, and keeps message and all other fields |
| Effects.DeleteExpiredTarget | internal/rdb/rdb.go:843-849 | The janitor removes only completed tasks whose time has come, place and hash |
| Broker.RedisQueue.constructor | internal/rdb/rdb.go:35-40 | A new queue is empty and satisfies the invariant |
| Broker.RedisQueue.Enqueue | internal/rdb/rdb.go:97-139 | The call in steps: existing id refused, else hash written and id pushed on the left; equals the specification and keeps the invariant |
| Broker.RedisQueue.EnqueueUnique | internal/rdb/rdb.go:156-209 | The lock is taken before the id is checked, as in the script; equals the specification and keeps the invariant |
| Broker.RedisQueue.Schedule | internal/rdb/rdb.go:473-514 | The scheduled set instead of pending; equals the specification and keeps the invariant |
| Broker.RedisQueue.ScheduleUnique | internal/rdb/rdb.go:529-581 | Lock, id check, scheduled set; equals the specification and keeps the invariant |
| Broker.RedisQueue.Dequeue | internal/rdb/rdb.go:226-273 | Pop on the right, push to active, state, pending_since and lease; the message lookup cannot fail |
| Broker.RedisQueue.Done | internal/rdb/rdb.go:284-367 | Both removals, deletion of the hash, and release of the lock only if this task holds it |
| Broker.RedisQueue.MarkAsComplete | internal/rdb/rdb.go:381-432 | Both removals, entry in completed, hash rewritten; the lock is not touched |
| Broker.RedisQueue.Requeue | internal/rdb/rdb.go:440-461 | Both removals, push on the right of pending, state |
| Broker.RedisQueue.Retry | internal/rdb/rdb.go:598-663 | Message with the failure recorded, both removals, entry in retry |
| Broker.RedisQueue.Archive | internal/rdb/rdb.go:687-765 | Both removals, entry in the archive, the two clean-ups, and last the hash |
| Broker.RedisQueue.Forward | internal/rdb/rdb.go:785-817 | The script's loop over one batch of at most 100 equals moving the batch at once |
| Broker.RedisQueue.ForwardAll | internal/rdb/rdb.go:821-835 | Batches of 100 until one is empty, for each set, end where one unbounded move would, after ceil(ready/100) + 1 calls for each set |
| Broker.RedisQueue.DeleteExpiredBatch | internal/rdb/rdb.go:843-884 | One batch of expired completed tasks is deleted, hash and entry |
| Broker.RedisQueue.DeleteExpiredCompletedTasks | internal/rdb/rdb.go:853-865 | For every nonzero batch size, negative ones included, the loop terminates; what stays completed is exactly what has a score after the current second, exactly the hashes of the others are gone, and no other hash has changed; batch size zero deletes nothing |
| Broker.RedisQueue.ListLeaseExpired | internal/rdb/rdb.go:889-926 | The messages of all leases with a score at most the cutoff |
| Broker.RedisQueue.ExtendLease | internal/rdb/rdb.go:930-942 | Only members that are still leased get the new score; the time returned keeps full precision |
| Broker.RedisQueue.WriteResult | internal/rdb/rdb.go:1033-1041 | The result is stored whether or not the task has a hash, and the invariant survives it |
| Runs.NothingLost | internal/rdb/rdb.go:284-849 | Over every run of broker calls an id is placed as often as it was accepted and not removed by Done, archive trimming or expiry of a completed task |
| Runs.CompletedIsRetained | internal/rdb/rdb.go:381-432 | From MarkAsComplete until the second CompletedAt + Retention no run of calls touches place, message or state of the completed task |
| Runs.RunRetains | internal/rdb/rdb.go:843-849 | The same from any state in which the task is completed |
| Runs.UniqueUntilDoneOrExpiry | internal/rdb/rdb.go:156-171 | From a successful unique call until the earlier of lock expiry and a successful Done of its holder, whatever runs in between, any other unique call with the key is refused and changes nothing |
| Runs.DoneUnlocksOnlyItsOwn | internal/rdb/rdb.go:317-341 | Done gives up exactly the lock on its key, if its task holds it and it has not expired, and leaves all others |
| Runs.AcceptedWhenFree | internal/rdb/rdb.go:156-171 | Over any run in which no call takes the lock: once the key has no lock or an expired one, a unique call under a new id goes through and holds the lock for its lifetime |
| Runs.AcceptedAfterExpiry | internal/rdb/rdb.go:529-543 | So a unique call goes through after the lock of an earlier one has expired, whatever ran in between |
| Runs.AcceptedAfterDone | internal/rdb/rdb.go:317-341 | And it goes through after the holder's Done, whatever ran in between |
| Runs.RefusedCallEffect | internal/rdb/rdb.go:529-543 | A refused client call changes the state if and only if it is a unique call whose key was free and whose id existed; it then keeps the lock it has just taken |
| Runs.OrphansStay | internal/rdb/rdb.go:97-100 | A hash without a place stays one in every run, and every client call with its id is refused: conflict, duplicate or bad lifetime, as stated |
| Runs.StepIsFifo | internal/rdb/rdb.go:97-107 | Every call is an operation on a first-in first-out queue: arrivals at the back, departures and requeued tasks at the front |
| Runs.RunIsFifo | internal/rdb/rdb.go:97-107 | Over every run, pending is a first-in first-out queue that only takes appended ids, hands out its first one, and has requeued ids put in front; the dequeued tasks are what that queue hands out |
| Runs.NoOvertaking | internal/rdb/rdb.go:226-237 | Over every run, requeues included: of two waiting tasks the first stays ahead, and the second does not leave before it |
| Runs.OnlyRequeuedOvertake | internal/rdb/rdb.go:440-449 | Over every run, whatever leaves while a task waits was ahead of it from the start or has been requeued since |
| Runs.RequeuedIsNext | internal/rdb/rdb.go:440-449 | A requeued task is the next one dequeued, whatever is enqueued, forwarded or finished in between |
| Batches.ForwardOrder | internal/rdb/rdb.go:821-835 | After forwardAll: old pending first, then all ready scheduled ids, then all ready retry ids, each in (score, id) order; what stays has a score after the current second |
| Batches.NextBatch | internal/rdb/rdb.go:785-795 | A batch is the front of everything ready and leaves exactly the rest ready |
| Batches.ExpiredBatch | internal/rdb/rdb.go:843-849 | The expired tasks are exactly those whose second has come, in (score, id) order, and a batch is the front of them |
| Batches.ExpiryIsComplete | internal/rdb/rdb.go:853-884 | Deleting all expired tasks removes entry and hash of exactly those whose second has come, and nothing else |
| Archiving.TrimKeepsTheHighest | internal/rdb/rdb.go:697-723 | After both clean-ups at most 9999 entries stay, none at or below the cutoff, all of them rank above all that went, and nothing goes that neither age nor size forces out |
| Archiving.NewEntrySurvives | internal/rdb/rdb.go:687-728 | The task being archived survives its own clean-up if and only if it is newer than the cutoff and, in a full archive, some entry that is not too old ranks below it |
| Archiving.SelfTrim | internal/rdb/rdb.go:712-720 | A concrete state with 9999 entries of this second: the task archived next is trimmed by its own call, keeps its hash without a place, and its id is refused to every client in every later run |
| Archiving.RunArchiveBound | internal/rdb/rdb.go:687-728 | In every run the archive holds at most 9999 tasks |
| Protocol.RunIsTrace | processor.go:258-379 | Every run of servers, heartbeats, recoverers and clients, with crashes anywhere, is a run of broker calls that keeps the invariant |
| Protocol.CallsAreSteps | client.go:402-415 | The steps of clients, forwarders, janitors, handlers and operators are one broker call each, and a crash is none |
| Protocol.ProtocolLosesNothing | recoverer.go:88-117 | In every protocol run with worker crashes at any point, each id is in at most one place, and is there exactly if it was accepted and not legitimately removed |
| Fencing.StepKeepsFencing | heartbeat.go:161-200 | Each protocol step keeps the fencing invariant: every worker that may still write owns the active attempt, its score covers lease, pending extension and the lease of a last write, and every task that a sweep may still move is one that no such worker has |
| Fencing.TolerableIsSafe | processor.go:258-379 | In every reachable state a worker that may still write, under a valid local lease or by a write on its way, owns the active, leased task with the stored message, no other such worker has it, and no recovery sweep may still move it; clock readings may be older than the calls they are for, and sweeps of several servers may overlap |
| Fencing.ScoreCoversLease | internal/rdb/rdb.go:243-273 | In every reachable state the local deadline of a worker that may still write is below its Redis score plus one second (plus skew and latency, if a beat may reach a worker that has finished) |
| Fencing.FencedWriteLands | processor.go:258-379 | A last write decided on under a valid lease and not delivered too late succeeds whatever its outcome, ends this attempt and its lease, leaves every other active task untouched, and nobody can write for the task afterwards |
| Limits.FencingExactly | recoverer.go:88-103 | Fencing holds over all runs if and only if (1) the skew and the delivery of a last write, and when a beat may reach a worker that has finished the skew again and the latency of a beat, are at most 29 s together; and (2) sweeps do not overlap, or twice the time that one may take, twice the skew and a second are no more than the shortest retry delay |
| Limits.OverlapSteals | recoverer.go:88-111 | Overlapping sweeps that may last longer than that, with a retry time worked out when the sweep began, take a task away from a worker with a valid lease: a concrete run for every time limit, retry delay and skew beyond the bound |
| Limits.SkewSteals | recoverer.go:90-91 | With more than 29 s of skew and delivery a concrete run takes a task from a worker whose last write is on its way |
| Limits.StaleBeatSteals | internal/rdb/rdb.go:930-942 | With twice the skew, latency and delivery above 29 s, a beat that was under way when its worker finished lowers the score of the next attempt: a concrete run for all such values |
| Attempts.AttemptsAreFaithful | processor.go:326-337 | In every fenced run each placed task is the client's own message with Retried equal to its counted failures, 0 <= Retried <= Retry, and the error and second of its last failed attempt; a live worker holds that message, and its next failure is retried if and only if a retry is left |
| Attempts.RetriesAreBounded | processor.go:326-337 | When all errors count, a placed task is retried at most Retry - Retried times more in any fenced run, by workers and recoverers together, for as long as no new task is accepted under its id |
| Attempts.StepFaithful | recoverer.go:96-117 | Each protocol step keeps identity and attempt count of every stored message |
| Recovery.SweepIsComplete | recoverer.go:88-117 | After a sweep at t no lease of a listed queue has a score at or below floor(t - 30 s); every task that had one is in retry with its failure recorded if Retried < Retry, and otherwise archived with it, or trimmed because it is too old or 9999 entries are at least as recent; every other active task is exactly as before |
| Recovery.SweepSettles | recoverer.go:96-103 | Working off a list settles every listed task; no iteration disturbs the rest of the list or any other active task |
| Recovery.Recoverer.RecoverLeaseExpiredTasks | recoverer.go:88-117 | The loop over the messages of all queues, with its branch and its broker calls, has the effect of the sweep on each named queue and none on the others |
| Broker.RDB.ListLeaseExpired | internal/rdb/rdb.go:903-926 | The list has, for each named queue and in its order, the messages with an old lease, and no others |
| Recovery.PassIsProtocolRun | recoverer.go:88-103 | Wherever the protocol lets a recoverer list, its pass is an allowed run of the protocol, one listing and one move per listed task, with the effect of the sweep |
| Leases.ClosedNeverRevives | internal/base/base.go:402-445 | From a new lease, over any calls with a clock that never runs backwards, the channel is closed at most once, and after that the lease is invalid at every later time |
| Leases.ClosedExactly | internal/base/base.go:402-425 | Over any calls the channel of a new lease is closed, and exactly once, if and only if some notification came after the lease had ended by the resets that were in time |
| Leases.CallsKeepWell | internal/base/base.go:414-425 | A closed channel always belongs to a lease that has expired, and each lease closes its channel at most once |
| Leases.Lease.constructor | internal/base/base.go:392-399 | A new lease has the given expiration and an open channel |
| Leases.Lease.IsValid | internal/base/base.go:440-445 | A lease is valid up to and including its expiration time |
| Leases.Lease.Reset | internal/base/base.go:402-411 | Reset moves the end of a valid lease and refuses, without effect, on an expired one; it never notifies |
| Leases.Lease.NotifyExpiration | internal/base/base.go:414-425 | After the call the channel of an expired lease is closed, and that of a valid one is as it was |
| Workers.FinishIsProtocolRun | processor.go:258-379 | The worker code below is an allowed run of the protocol, the check of the lease and then, if it is valid, the last write, with the same effect |
| Workers.LastWriteEffect | processor.go:258-379 | What a worker's last action does, said without broker calls: nothing if the lease has ended or the task is not active; else success completes a retained task until now + retention and removes any other, an abort puts it next in line unchanged, and a failure is recorded and retried after the delay if a retry is left and not ruled out, archived otherwise |
| Workers.Processor.Requeue | processor.go:258-271 | Under a valid lease an aborted task is put next in line with its message as it was; else nothing is written |
| Workers.Processor.HandleSucceededMessage | processor.go:273-324 | Under a valid lease a successful task is completed for its retention if that is positive, and removed with its hash if not; else nothing is written; no other task changes |
| Workers.Processor.HandleFailedMessage | processor.go:326-379 | Under a valid lease a failed task gets its error and second and is retried after the delay, or archived if retries are used up or skipped; else nothing is written; only the archive can lose other tasks |
| Workers.Processor.HandleLeaseExpired | processor.go:240-243 | The worker that sees its lease channel closed performs no broker write |
| Workers.LockAfterSuccess | processor.go:273-279 | After success the uniqueness lock is still held if and only if the task is retained |
| Broker.RDB.Dequeue | internal/rdb/rdb.go:243-273 | The queues are asked in the given order; the task comes from the first that is neither empty nor paused, and no other queue changes |
| Workers.Pull | processor.go:170-193 | A server finds no task if and only if every configured queue was empty or paused; in strict mode the task's queue has the highest configured weight of those that were not |
| Workers.BeatenForExactly | heartbeat.go:133-137 | A started attempt that has not ended is beaten for, under its own lease, if and only if no event after its start was about its task id |
| Workers.OldEndDropsNew | heartbeat.go:136-137 | The end of an older attempt of the same task on the same server drops the newer, still running one: a concrete history |
| Workers.Heartbeater.Check | heartbeat.go:161-182 | Exactly the ids with a valid lease are collected, each under its queue; holders of the others are notified |
| Workers.Heartbeater.Beat | heartbeat.go:144-201 | After one beat, in every queue exactly the workers whose lease was valid have a score 30 s from now, their local leases end 30 s from now, and the channel of every other worker's lease is closed |
| Workers.BeatIsProtocolRun | heartbeat.go:186-200 | On leases that mirror the protocol's workers, a beat is an allowed run of the protocol: the clock reading, one extension for exactly the valid leases, and their resets; scores and deadlines come out as Beat says, and no other worker changes |
| Workers.BeatByQueue | heartbeat.go:182-186 | What a beat does to a queue and its workers depends on that queue's workers alone |
| QueueChoice.Gcd | processor.go:479-494 | For nonempty positive weights in any order, the divisors of the result are exactly the common divisors of the weights |
| QueueChoice.GcdIsGreatest | processor.go:479-494 | Such a number divides every weight and no common divisor is larger |
| QueueChoice.NormalizeQueues | processor.go:466-476 | Every weight is the new weight, at least 1, times one common factor, and the new weights have no common divisor but 1 |
| QueueChoice.RatiosKept | processor.go:466-476 | Dividing by a common factor keeps every ratio of weights |
| QueueChoice.Uniq | processor.go:425-438 | The first l different names, in the order of their first occurrences, or all of them if there are fewer or l is zero |
| QueueChoice.FirstsInOrder | processor.go:425-438 | The result has no repetitions, and each name occurs in the input before any later one does |
| QueueChoice.SortByPriority | processor.go:441-463 | A permutation of the configured queues with priorities descending |
| QueueChoice.QueuePicker.constructor | processor.go:94-125 | The stored weights are the configured ones divided by one positive factor, so all ratios are kept, and in strict mode the queues are ordered by them |
| QueueChoice.SameOrder | processor.go:94-125 | Stored and configured weights order the queues alike |
| QueueChoice.QueuePicker.Queues | processor.go:382-399 | The queues to ask are always a permutation of the configured queues, by descending priority in strict mode |
| QueueChoice.QueuePicker.Weighted | processor.go:391-396 | Without strict priority the list that is shuffled holds each queue exactly as often as its weight says |
| QueueChoice.StrictTakesHighest | processor.go:382-399 | When all queues before one are blocked and it is not, no unblocked queue has a higher priority |
| QueueChoice.ConfiguredQueues | server.go:341-352 | The queues of a server are the named ones with positive weight, or only the default queue if there are none |
| Shutdown.WorkersBounded | processor.go:139-256 | In every interleaving, tokens taken after quit is closed included, the tokens held are the workers, the one being used to look for a task and those that shutdown took back; there are at most concurrency workers, none once shutdown has returned, and no late write or report is left when syncer or heartbeater stop |
| Shutdown.ShutdownNeverSticks | server.go:554-572 | Until everything is down some step is possible: no worker waits for a reader that is gone |
| Shutdown.ShutdownIsBounded | processor.go:127-150 | Once stop waits for the processor goroutine, no interleaving takes more steps than a bound known at that point |
| Shutdown.EveryWorkerEnds | processor.go:139-256 | Once shutdown has returned, every dequeued task had a worker, and every worker has ended, handed a late write over if it had one, reported and given its token back exactly once |
| Backoff.DelayBounds | server.go:283-287 | The delay lies in [n^4 + 15, n^4 + 15 + 29 (n + 1)] seconds, and both ends occur |
| Backoff.DelaysSeparate | server.go:283-287 | Every delay after n + 1 failures exceeds every delay after n if and only if n >= 3 |
| Backoff.FitsInt64 | server.go:283-287 | The delay in nanoseconds fits an int64 if and only if n <= 309, whatever the jitter |
| Keys.TaskKeysCollide | internal/base/base.go:98-112 | Two queues can share a task key, for ids that are not blank, if and only if they are the same or one name extends the other by `}:t:` and more |
| Keys.BracelessQueuesAreSeparate | internal/base/base.go:98-112 | Without a closing brace in the names, equal task keys mean the same queue and id |
| Client.MaxRetry | client.go:93-98 | The retry limit is never negative, as given if it is not negative, and zero otherwise |
| Client.ComposeOptions | client.go:233-279 | Invalid if and only if some option is a blank queue name, a blank id or a lifetime below a second; otherwise the last option of each kind counts and the rest have their defaults |
| Base.WhiteSpace | client.go:282-284 | The characters that count as blank, by code point |
| Client.LastOneCounts | client.go:233-279 | An option that no later one of its kind overrides is the one in force |
| Client.OtherwiseDefaults | client.go:233-245 | Without an option of a kind: 25 retries, queue "default", a new id, now, and none |
| Client.MessageCarriesOptions | client.go:353-378 | Every field of the message from the options: durations in whole seconds towards zero, the deadline as a second of the epoch, half an hour of timeout if neither is set, the unique key if it has a lifetime, no trace of an attempt |
| Client.CallCarriesTimes | client.go:379-415 | The call is a scheduled one exactly if the processing time is to come, with its second as score, and a unique one exactly if there is a lifetime, with that lifetime in whole seconds |
| Client.ClientCallsAreFresh | client.go:336-415 | What a client submits has Retried = 0, Retry >= 0 and its own queue, and the call matches uniqueness and time; a unique call in time asks for a lock of at least one second |
| Client.NeitherTimeoutNorDeadline | client.go:353-372 | A message has neither timeout nor deadline if and only if the timeout given is under a second either way, the deadline is in the first second of the epoch, and not both are unset |

## Left out

- Redis client, connections, script transport, error wrapping: calls outside the program.
- JSON encoding of messages and the MD5 in UniqueKey: messages are values, and the unique key is an arbitrary string.
- Daily and total counters of processed and failed tasks with their expiry: bookkeeping that no other code reads.
- The set of all queue names, WriteServerState, ClearServerState, pub/sub cancellation, logging and the user interface: input and output.
- Timers of forwarder, janitor, recoverer, health check and subscriber: each surrounds one broker call, which may come at any time here.
- Syncer: `Protocol` has no write after a failed one, and only its channel is part of `Shutdown`; no claim is made that a late write lands, since its context is cancelled by then.
- Lua's stack limit on unpack in the archive script, and the rounding of scores as doubles: ids and scores are exact here.
- Handlers: a handler that is still running after its worker has given up is not modelled; `Shutdown` speaks of workers.
- computeDeadline, task contexts, panics in handlers, TaskState conversions, Ping, inspection calls: plain branches without a property of their own.
- Runs.UniqueUntilDoneOrExpiry: lock expiry is compared with the time of the command in nanoseconds, where Redis uses its own clock in milliseconds.
- Broker.RedisQueue.Archive: the cutoff is a parameter, since now.AddDate(0, 0, -90) depends on the calendar.
- Broker.RedisQueue.Retry: the delay function and IsFailure of the configuration are parameters of the caller.
- Broker.RedisQueue.ForwardAll: one clock reading for all batches; with several readings each call is a CForward of `Runs`.
- Broker.RedisQueue.DeleteExpiredCompletedTasks: one clock reading for all batches, likewise.
- Broker.RedisQueue.WriteResult: can create a hash for an id without a place, so the invariant says that a place implies a hash and not the converse.
- Recovery.Recoverer.RecoverLeaseExpiredTasks: one clock reading, and no queue named twice; in `Protocol` the clock may advance between the moves.
- Recovery.PassIsProtocolRun: one clock reading, likewise.
- Workers.FinishIsProtocolRun: one clock reading for check and write; the protocol has any time between them.
- Workers.Heartbeater.Beat: one clock reading and no failing call; `Protocol` has reading, extension and reset at different times.
- QueueChoice.QueuePicker.Queues: shuffling is an arbitrary permutation, without any claim on probabilities.
- QueueChoice.SortByPriority: picks a highest remaining name in place of the library sort; equal priorities come in any order.
- Backoff.DelayBounds: math.Pow is exact, and the random number is any value below 30.
- Client.ComposeOptions: one clock reading for ProcessIn and the default time; strings are sequences of code points.
- Client.ClientCallsAreFresh: the checks for a missing task and a blank type name, which precede any broker call, are left out.
- Keys.TaskKeysCollide: only task keys; the keys of lists and sorted sets have the same prefix.
- Integers are unbounded, except in Backoff.FitsInt64.
