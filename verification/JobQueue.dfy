/** The in-memory job queue of internal/jobs, its dead-letter list and the
    registry's treatment of one delivered job. Times are nanoseconds. */
module JobQueue {
  import opened Clock
  import opened Wrappers

  datatype Job = Job(
    id: string, kind: string, payload: string,
    attempts: int, maxRetries: int,
    enqueuedAt: int, runAfter: int, lastError: string)

  datatype QueueError = QueueClosed

  // ----- backoff -----

  newtype Int64 = x: int | -0x8000_0000_0000_0000 <= x < 0x8000_0000_0000_0000

  function Pow2(n: nat): (p: nat)
    ensures p >= 1
  {
    if n == 0 then 1 else 2 * Pow2(n - 1)
  }

  lemma Pow2Grows(m: nat, n: nat)
    requires m <= n
    ensures Pow2(m) <= Pow2(n)
  {}

  /** One second doubled per earlier attempt, at most a minute. */
  function Delay(attempt: int): (d: int)
    ensures SECOND <= d <= MINUTE
  {
    if attempt <= 1 then SECOND
    else if Pow2(attempt - 1) < 60 then Pow2(attempt - 1) * SECOND
    else MINUTE
  }

  /** A retry waits twice as long as the one before it, up to a minute. */
  lemma DelayDoubles(attempt: int)
    ensures attempt <= 1 ==> Delay(attempt) == SECOND
    ensures attempt >= 1 ==>
      Delay(attempt + 1) == if 2 * Delay(attempt) > MINUTE then MINUTE else 2 * Delay(attempt)
  {
    if attempt >= 1 && Pow2(attempt - 1) <= 60 {
      PowersBelow64(attempt - 1);
    }
    if attempt >= 1 && Pow2(attempt) <= 60 {
      PowersBelow64(attempt);
    }
  }

  /** The doubling loop never leaves int64 and computes `Delay` for every attempt. */
  method Backoff(attempt: int) returns (base: Int64)
    ensures base as int == Delay(attempt)
  {
    base := 1_000_000_000;
    var i := 1;
    while i < attempt
      invariant 1 <= i && (i <= attempt || i == 1)
      invariant base as int == Pow2(i - 1) * SECOND && Pow2(i - 1) <= 60
    {
      base := base * 2;
      if base > 60_000_000_000 {
        Pow2Grows(i, attempt - 1);
        return 60_000_000_000;
      }
      i := i + 1;
    }
    assert attempt > 1 ==> Pow2(attempt - 1) != 60 by {
      PowersBelow64(i - 1);
    }
  }

  lemma PowersBelow64(n: nat)
    requires Pow2(n) <= 60
    ensures Pow2(n) != 60 && n <= 5
  {
    assert Pow2(6) == 64;
    if n >= 6 {
      Pow2Grows(6, n);
    }
  }

  // ----- the queue -----

  datatype Dequeued = Stopped | Idle | Sleep(until: int) | Delivered(job: Job)

  /** One locked section of Dequeue at clock reading `now`. */
  function DequeueSpec(items: seq<Job>, closed: bool, now: int): (seq<Job>, Dequeued) {
    if closed then (items, Stopped)
    else if items == [] then (items, Idle)
    else if items[0].runAfter > now then (items[1..] + [items[0]], Sleep(items[0].runAfter))
    else (items[1..], Delivered(items[0]))
  }

  /** A failed job as Nack puts it back, stamped at clock reading `stamp`. */
  function Rescheduled(job: Job, err: string, stamp: int): Job {
    job.(lastError := err, runAfter := stamp + Delay(job.attempts))
  }

  class MemoryQueue {
    var items: seq<Job>
    var closed: bool

    constructor ()
      ensures items == [] && !closed
    {
      items, closed := [], false;
    }

    method Enqueue(job: Job) returns (r: Result<(), QueueError>)
      modifies this
      ensures closed == old(closed) && (r.Ok? <==> !closed)
      ensures items == old(items) + (if r.Ok? then [job] else [])
    {
      if closed {
        return Err(QueueClosed);
      }
      items := items + [job];
      r := Ok(());
    }

    /** From taking the lock to releasing it: the caller then waits, sleeps or returns. */
    method DequeueLocked(now: int) returns (d: Dequeued)
      modifies this
      ensures closed == old(closed) && (items, d) == DequeueSpec(old(items), closed, now)
      ensures closed ==> d == Stopped && items == old(items)
      ensures !closed && old(items) == [] ==> d == Idle && items == []
      ensures !closed && old(items) != [] ==>
        var head := old(items)[0];
        if head.runAfter > now then d == Sleep(head.runAfter) && items == old(items)[1..] + [head]
        else d == Delivered(head) && [head] + items == old(items)
    {
      if closed {
        return Stopped;
      }
      if |items| == 0 {
        return Idle;
      }
      var job := items[0];
      items := items[1..];
      if job.runAfter > now {
        items := items + [job];
        return Sleep(job.runAfter);
      }
      d := Delivered(job);
    }

    method Nack(job: Job, err: string, stamp: int) returns (r: Result<(), QueueError>)
      modifies this
      ensures closed == old(closed)
      ensures r.Ok? <==> job.attempts > job.maxRetries || !closed
      ensures items == old(items)
        + (if job.attempts <= job.maxRetries && !closed
           then [job.(lastError := err, runAfter := stamp + Delay(job.attempts))] else [])
    {
      var again := job.(lastError := err);
      if again.attempts > again.maxRetries {
        return Ok(());
      }
      var wait := Backoff(again.attempts);
      again := again.(runAfter := stamp + wait as int);
      if closed {
        return Err(QueueClosed);
      }
      items := items + [again];
      r := Ok(());
    }

    method Close()
      modifies this
      ensures closed && items == old(items)
    {
      if closed {
        return;
      }
      closed := true;
    }
  }

  // ----- the dead-letter list -----

  datatype DeadEntry = DeadEntry(job: Job, lastErr: string, at: int)

  class DeadLetter {
    var entries: seq<DeadEntry>

    constructor ()
      ensures entries == []
    {
      entries := [];
    }

    method Add(job: Job, lastErr: string)
      modifies this
      ensures entries == old(entries) + [DeadEntry(job, lastErr, job.enqueuedAt)]
    {
      entries := entries + [DeadEntry(job, lastErr, job.enqueuedAt)];
    }
  }

  // ----- the registry -----

  datatype Outcome = Succeeds | Fails(err: string)

  datatype Verdict = Acked | Buried(job: Job, err: string) | Retried(job: Job, err: string)

  /** What the registry decides about one delivered job. */
  function Judge(job: Job, registered: bool, outcome: Outcome): Verdict {
    var tried := job.(attempts := job.attempts + 1);
    if registered && outcome.Succeeds? then Acked
    else
      var err := if registered then outcome.err else "no handler for job type " + job.kind;
      if tried.attempts > tried.maxRetries then Buried(tried, err) else Retried(tried, err)
  }

  class Registry {
    const queue: MemoryQueue
    const dead: DeadLetter?
    var handlers: set<string>

    constructor (queue: MemoryQueue, dead: DeadLetter?)
      ensures this.queue == queue && this.dead == dead && handlers == {}
    {
      this.queue, this.dead, handlers := queue, dead, {};
    }

    method Register(kind: string)
      modifies this
      ensures handlers == old(handlers) + {kind}
    {
      handlers := handlers + {kind};
    }

    /** A fresh job that is due at once and may be retried twice. */
    method Enqueue(id: string, kind: string, payload: string, at: int, due: int)
      returns (r: Result<(), QueueError>)
      modifies queue
      ensures queue.closed == old(queue.closed) && (r.Ok? <==> !queue.closed)
      ensures queue.items == old(queue.items)
        + (if r.Ok? then [Job(id, kind, payload, 0, 2, at, due, "")] else [])
    {
      r := queue.Enqueue(Job(id, kind, payload, 0, 2, at, due, ""));
    }

    /** Run one delivered job whose handler, if any, ends with `outcome`; `stamp`
        is the clock reading that Nack takes. */
    method RunJob(job: Job, outcome: Outcome, stamp: int) returns (v: Verdict)
      modifies queue, dead
      ensures v == Judge(job, job.kind in handlers, outcome) && queue.closed == old(queue.closed)
      ensures queue.items == old(queue.items)
        + (if v.Retried? && !queue.closed then [Rescheduled(v.job, v.err, stamp)] else [])
      ensures dead != null ==>
        dead.entries == old(dead.entries) + (if v.Buried? then [DeadEntry(v.job, v.err, job.enqueuedAt)] else [])
      // a success ends the job
      ensures job.kind in handlers && outcome.Succeeds? ==>
        queue.items == old(queue.items) && (dead != null ==> dead.entries == old(dead.entries))
      // a failure is counted, and goes on the list or back on the queue
      ensures !(job.kind in handlers && outcome.Succeeds?) ==>
        var err := if job.kind in handlers then outcome.err else "no handler for job type " + job.kind;
        var n := job.attempts + 1;
        if n > job.maxRetries
        then queue.items == old(queue.items) &&
             (dead != null ==>
               dead.entries == old(dead.entries) + [DeadEntry(job.(attempts := n), err, job.enqueuedAt)])
        else (dead != null ==> dead.entries == old(dead.entries)) &&
             queue.items == old(queue.items) + (if queue.closed then []
                else [job.(attempts := n, lastError := err, runAfter := stamp + Delay(n))])
    {
      var tried := job.(attempts := job.attempts + 1);
      if job.kind !in handlers {
        var err := "no handler for job type " + job.kind;
        if tried.attempts > tried.maxRetries {
          if dead != null {
            dead.Add(tried, err);
          }
          return Buried(tried, err);
        }
        var _ := queue.Nack(tried, err, stamp);
        return Retried(tried, err);
      }
      if outcome.Succeeds? {
        return Acked;
      }
      if tried.attempts > tried.maxRetries {
        if dead != null {
          dead.Add(tried, outcome.err);
        }
        return Buried(tried, outcome.err);
      }
      var _ := queue.Nack(tried, outcome.err, stamp);
      v := Retried(tried, outcome.err);
    }
  }
}
