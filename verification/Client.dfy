/** Which calls a client makes (client.go): options, the message, and the choice of script. */
module Client {
  import opened Base
  import opened Queues
  import opened Protocol

  /** Options as the exported constructors build them; durations and times in nanoseconds. */
  datatype Opt =
    | MaxRetryOpt(n: int)
    | QueueOpt(name: string)
    | TaskIDOpt(id: string)
    | TimeoutOpt(d: int)
    | DeadlineOpt(t: Option<int>)        // None is the zero time
    | UniqueOpt(ttl: int)
    | ProcessAtOpt(at: int)
    | ProcessInOpt(d: int)
    | RetentionOpt(d: int)

  function MaxRetry(n: int): (o: Opt)
    ensures o.MaxRetryOpt? && o.n >= 0 && (n >= 0 ==> o.n == n) && (n < 0 ==> o.n == 0)
  {
    MaxRetryOpt(if n < 0 then 0 else n)
  }

  datatype Options = Options(
    retry: int, queue: string, taskID: string, timeout: int, deadline: Option<int>,
    uniqueTTL: int, processAt: int, retention: int)

  datatype Composed = Ok(opts: Options) | Invalid

  const DEFAULT_MAX_RETRY := 25
  const DEFAULT_TIMEOUT := 30 * 60 * SECOND

  predicate Acceptable(o: Opt) {
    && (o.QueueOpt? ==> !Blank(o.name))
    && (o.TaskIDOpt? ==> !Blank(o.id))
    && (o.UniqueOpt? ==> o.ttl >= SECOND)
  }

  function Defaults(uuid: string, now: int): Options {
    Options(DEFAULT_MAX_RETRY, DEFAULT_QUEUE, uuid, 0, None, 0, now, 0)
  }

  /** The last option of each kind counts, and one bad option spoils the call. */
  method ComposeOptions(opts: seq<Opt>, uuid: string, now: int) returns (r: Composed)
    ensures r.Invalid? <==> exists i | 0 <= i < |opts| :: !Acceptable(opts[i])
    ensures r.Ok? ==>
      && r.opts.retry == LastRetry(opts, |opts|)
      && r.opts.queue == LastQueue(opts, |opts|)
      && r.opts.taskID == LastID(opts, |opts|, uuid)
      && r.opts.timeout == LastTimeout(opts, |opts|)
      && r.opts.deadline == LastDeadline(opts, |opts|)
      && r.opts.uniqueTTL == LastTTL(opts, |opts|)
      && r.opts.processAt == LastAt(opts, |opts|, now)
      && r.opts.retention == LastRetention(opts, |opts|)
  {
    var res := Defaults(uuid, now);
    for i := 0 to |opts|
      invariant forall j | 0 <= j < i :: Acceptable(opts[j])
      invariant res.retry == LastRetry(opts, i) && res.queue == LastQueue(opts, i)
      invariant res.taskID == LastID(opts, i, uuid) && res.timeout == LastTimeout(opts, i)
      invariant res.deadline == LastDeadline(opts, i) && res.uniqueTTL == LastTTL(opts, i)
      invariant res.processAt == LastAt(opts, i, now) && res.retention == LastRetention(opts, i)
    {
      match opts[i] {
        case MaxRetryOpt(n) => res := res.(retry := n);
        case QueueOpt(name) =>
          if Blank(name) { return Invalid; }
          res := res.(queue := name);
        case TaskIDOpt(id) =>
          if Blank(id) { return Invalid; }
          res := res.(taskID := id);
        case TimeoutOpt(d) => res := res.(timeout := d);
        case DeadlineOpt(t) => res := res.(deadline := t);
        case UniqueOpt(ttl) =>
          if ttl < SECOND { return Invalid; }
          res := res.(uniqueTTL := ttl);
        case ProcessAtOpt(at) => res := res.(processAt := at);
        case ProcessInOpt(d) => res := res.(processAt := now + d);
        case RetentionOpt(d) => res := res.(retention := d);
      }
    }
    r := Composed.Ok(res);
  }

  function LastRetry(opts: seq<Opt>, i: nat): int
    requires i <= |opts|
  {
    if i == 0 then DEFAULT_MAX_RETRY else if opts[i - 1].MaxRetryOpt? then opts[i - 1].n else LastRetry(opts, i - 1)
  }

  function LastQueue(opts: seq<Opt>, i: nat): string
    requires i <= |opts|
  {
    if i == 0 then DEFAULT_QUEUE else if opts[i - 1].QueueOpt? then opts[i - 1].name else LastQueue(opts, i - 1)
  }

  function LastID(opts: seq<Opt>, i: nat, uuid: string): string
    requires i <= |opts|
  {
    if i == 0 then uuid else if opts[i - 1].TaskIDOpt? then opts[i - 1].id else LastID(opts, i - 1, uuid)
  }

  function LastTimeout(opts: seq<Opt>, i: nat): int
    requires i <= |opts|
  {
    if i == 0 then 0 else if opts[i - 1].TimeoutOpt? then opts[i - 1].d else LastTimeout(opts, i - 1)
  }

  function LastDeadline(opts: seq<Opt>, i: nat): Option<int>
    requires i <= |opts|
  {
    if i == 0 then None else if opts[i - 1].DeadlineOpt? then opts[i - 1].t else LastDeadline(opts, i - 1)
  }

  function LastTTL(opts: seq<Opt>, i: nat): int
    requires i <= |opts|
  {
    if i == 0 then 0 else if opts[i - 1].UniqueOpt? then opts[i - 1].ttl else LastTTL(opts, i - 1)
  }

  function LastAt(opts: seq<Opt>, i: nat, now: int): int
    requires i <= |opts|
  {
    if i == 0 then now
    else if opts[i - 1].ProcessAtOpt? then opts[i - 1].at
    else if opts[i - 1].ProcessInOpt? then now + opts[i - 1].d
    else LastAt(opts, i - 1, now)
  }

  function LastRetention(opts: seq<Opt>, i: nat): int
    requires i <= |opts|
  {
    if i == 0 then 0 else if opts[i - 1].RetentionOpt? then opts[i - 1].d else LastRetention(opts, i - 1)
  }

  lemma {:induction false} RetryNotNegative(opts: seq<Opt>, i: nat)
    requires i <= |opts| && forall j | 0 <= j < i && opts[j].MaxRetryOpt? :: opts[j].n >= 0
    ensures LastRetry(opts, i) >= 0
  {
    if i > 0 && !opts[i - 1].MaxRetryOpt? { RetryNotNegative(opts, i - 1); }
  }

  predicate SameKind(a: Opt, b: Opt) {
    || (a.MaxRetryOpt? && b.MaxRetryOpt?) || (a.QueueOpt? && b.QueueOpt?) || (a.TaskIDOpt? && b.TaskIDOpt?)
    || (a.TimeoutOpt? && b.TimeoutOpt?) || (a.DeadlineOpt? && b.DeadlineOpt?) || (a.UniqueOpt? && b.UniqueOpt?)
    || (a.RetentionOpt? && b.RetentionOpt?)
    || ((a.ProcessAtOpt? || a.ProcessInOpt?) && (b.ProcessAtOpt? || b.ProcessInOpt?))
  }

  /** An option that no later one of its kind overrides is the one in force. */
  lemma {:induction false} LastOneCounts(opts: seq<Opt>, k: nat, i: nat, uuid: string, now: int)
    requires k < i <= |opts| && forall j | k < j < i :: !SameKind(opts[j], opts[k])
    ensures match opts[k]
            case MaxRetryOpt(n) => LastRetry(opts, i) == n
            case QueueOpt(name) => LastQueue(opts, i) == name
            case TaskIDOpt(id) => LastID(opts, i, uuid) == id
            case TimeoutOpt(d) => LastTimeout(opts, i) == d
            case DeadlineOpt(t) => LastDeadline(opts, i) == t
            case UniqueOpt(ttl) => LastTTL(opts, i) == ttl
            case ProcessAtOpt(at) => LastAt(opts, i, now) == at
            case ProcessInOpt(d) => LastAt(opts, i, now) == now + d
            case RetentionOpt(d) => LastRetention(opts, i) == d
  {
    if k < i - 1 { LastOneCounts(opts, k, i - 1, uuid, now); }
  }

  /** Without an option of a kind the defaults are 25 retries, the queue "default", a new id, now, and none. */
  lemma {:induction false} OtherwiseDefaults(opts: seq<Opt>, i: nat, uuid: string, now: int)
    requires i <= |opts|
    ensures (forall j | 0 <= j < i :: !opts[j].MaxRetryOpt?) ==> LastRetry(opts, i) == 25
    ensures (forall j | 0 <= j < i :: !opts[j].QueueOpt?) ==> LastQueue(opts, i) == "default"
    ensures (forall j | 0 <= j < i :: !opts[j].TaskIDOpt?) ==> LastID(opts, i, uuid) == uuid
    ensures (forall j | 0 <= j < i :: !opts[j].TimeoutOpt?) ==> LastTimeout(opts, i) == 0
    ensures (forall j | 0 <= j < i :: !opts[j].DeadlineOpt?) ==> LastDeadline(opts, i) == None
    ensures (forall j | 0 <= j < i :: !opts[j].UniqueOpt?) ==> LastTTL(opts, i) == 0
    ensures (forall j | 0 <= j < i :: !opts[j].ProcessAtOpt? && !opts[j].ProcessInOpt?) ==> LastAt(opts, i, now) == now
    ensures (forall j | 0 <= j < i :: !opts[j].RetentionOpt?) ==> LastRetention(opts, i) == 0
  {
    if i > 0 { OtherwiseDefaults(opts, i - 1, uuid, now); }
  }

  // ---------------------------------------------------------------- the message

  /** `int64(d.Seconds())`: whole seconds, towards zero. */
  function WholeSeconds(d: int): int {
    if d >= 0 then d / SECOND else -(-d / SECOND)
  }

  /** The timeout in force: the default one only if neither a timeout nor a deadline is set. */
  function Timeout(o: Options): int {
    if (o.deadline.None? || o.deadline.value == 0) && o.timeout == 0 then DEFAULT_TIMEOUT else o.timeout
  }

  function Deadline(o: Options): int {
    if o.deadline.None? then 0 else o.deadline.value
  }

  /** `key` stands for the value of base.UniqueKey. */
  function BuildMessage(o: Options, typename: string, payload: Payload, key: string): TaskMessage {
    TaskMessage(o.taskID, o.queue, typename, payload, o.retry, 0, "", 0,
                WholeSeconds(Timeout(o)), Sec(Deadline(o)),
                if o.uniqueTTL > 0 then key else "", WholeSeconds(o.retention), 0)
  }

  /** The broker call of EnqueueContext; `now` and `later` are its two readings of the clock. */
  function ClientCall(o: Options, m: TaskMessage, now: int, later: int): Cmd {
    if o.processAt > now then
      if o.uniqueTTL > 0 then CScheduleUnique(m, WholeSeconds(o.processAt + o.uniqueTTL - later), Sec(o.processAt), later)
      else CSchedule(m, Sec(o.processAt), later)
    else
      if o.uniqueTTL > 0 then CEnqueueUnique(m, WholeSeconds(o.uniqueTTL), later)
      else CEnqueue(m, later)
  }

  /**
   What a client can put into a queue: a message for that queue that has never been retried and
   with a retry limit of at least zero, which is what the protocol starts from.  A unique call
   that gets through before the processing time asks for a lock of at least one second.
   */
  lemma ClientCallsAreFresh(opts: seq<Opt>, o: Options, typename: string, payload: Payload, key: string, cfg: Config, now: int, later: int)
    requires o.retry == LastRetry(opts, |opts|) && forall j | 0 <= j < |opts| && opts[j].MaxRetryOpt? :: opts[j].n >= 0
    requires cfg.name == o.queue && now <= later && (o.uniqueTTL > 0 ==> o.uniqueTTL >= SECOND)
    ensures var c := ClientCall(o, BuildMessage(o, typename, payload, key), now, later);
            && FreshMessage(cfg, c)
            && (c.CEnqueueUnique? || c.CScheduleUnique? <==> o.uniqueTTL > 0)
            && (c.CEnqueue? || c.CEnqueueUnique? <==> o.processAt <= now)
            && (o.uniqueTTL > 0 && (o.processAt <= now || later <= o.processAt) ==> c.ttl >= 1)
  {
    RetryNotNegative(opts, |opts|);
  }

  /**
   A message is meant to have a timeout or a deadline.  It has neither exactly when the timeout in
   force is shorter than a second and the deadline lies within the first second of the epoch.
   */
  lemma NeitherTimeoutNorDeadline(o: Options, typename: string, payload: Payload, key: string)
    ensures var m := BuildMessage(o, typename, payload, key);
            m.timeout == 0 && m.deadline == 0 <==>
              0 <= Deadline(o) < SECOND
              && -SECOND < o.timeout < SECOND && (o.timeout != 0 || Deadline(o) != 0)
  {
    var t := Timeout(o);
    assert WholeSeconds(t) == 0 <==> -SECOND < t < SECOND;
  }

  /** n is d in whole seconds, towards zero. */
  predicate InSeconds(n: int, d: int) {
    if d >= 0 then n * SECOND <= d < (n + 1) * SECOND else (n - 1) * SECOND < d <= n * SECOND
  }

  /** n is the second of the epoch that t falls into. */
  predicate InEpoch(n: int, t: int) {
    n * SECOND <= t < (n + 1) * SECOND
  }

  /**
   The message carries the options: ids and limits as given, durations in whole seconds, the deadline
   as a second of the epoch, half an hour of timeout if neither timeout nor deadline is set, the
   unique key if there is a lifetime for it, and no trace of an attempt.
   */
  lemma MessageCarriesOptions(o: Options, typename: string, payload: Payload, key: string)
    ensures var m := BuildMessage(o, typename, payload, key);
            var unlimited := o.timeout == 0 && (o.deadline == None || o.deadline == Some(0));
            && m.id == o.taskID && m.queue == o.queue && m.typename == typename && m.payload == payload
            && m.retry == o.retry && m.retried == 0 && m.errorMsg == "" && m.lastFailedAt == 0 && m.completedAt == 0
            && InSeconds(m.timeout, if unlimited then 1800 * SECOND else o.timeout)
            && InEpoch(m.deadline, if o.deadline.Some? then o.deadline.value else 0)
            && InSeconds(m.retention, o.retention)
            && m.uniqueKey == (if o.uniqueTTL > 0 then key else "")
  {
  }

  /**
   The call carries that message, asks for its second if the processing time is still to come, and for
   a lock that lasts its lifetime in whole seconds, from the processing time on if that is to come.
   */
  lemma CallCarriesTimes(o: Options, m: TaskMessage, now: int, later: int)
    ensures var c := ClientCall(o, m, now, later);
            && Submits(c) && c.m == m && c.now == later
            && (c.CSchedule? || c.CScheduleUnique? <==> now < o.processAt)
            && (IsUnique(c) <==> o.uniqueTTL > 0)
            && (c.CSchedule? || c.CScheduleUnique? ==> InEpoch(c.at, o.processAt))
            && (c.CEnqueueUnique? ==> InSeconds(c.ttl, o.uniqueTTL))
            && (c.CScheduleUnique? ==> InSeconds(c.ttl, o.processAt + o.uniqueTTL - later))
  {
  }
}
