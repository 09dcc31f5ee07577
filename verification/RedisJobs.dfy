/** The Redis queue's Nack counts an attempt of its own, so a job that always
    fails is tried about half as often and may vanish. */
module RedisJobs {
  import opened Wrappers
  import opened JobQueue

  class RedisQueue {
    var stream: seq<Job>

    constructor ()
      ensures stream == []
    {
      stream := [];
    }

    /** Ack the delivery, count again, and re-add the job unless it is used up. */
    method Nack(job: Job, err: string, stamp: int) returns (r: Result<(), string>)
      modifies this
      ensures var again := Renacked(job, err, stamp);
        (r.Ok? <==> again.None? || job.id != "")
        && stream == old(stream) + (if again.Some? && job.id != "" then [again.value] else [])
      ensures var n := job.attempts + 1;
        stream == old(stream) + (if n > job.maxRetries || job.id == "" then []
          else [job.(attempts := n, lastError := err, runAfter := stamp + Delay(n))])
    {
      var again := job.(attempts := job.attempts + 1, lastError := err);
      if again.attempts > again.maxRetries {
        return Ok(());
      }
      var wait := Backoff(again.attempts);
      again := again.(runAfter := stamp + wait as int);
      if again.id == "" {
        return Err("redis queue: job.ID is required");
      }
      stream := stream + [again];
      r := Ok(());
    }
  }

  function Renacked(job: Job, err: string, stamp: int): Option<Job> {
    var again := job.(attempts := job.attempts + 1, lastError := err);
    if again.attempts > again.maxRetries then None
    else Some(again.(runAfter := stamp + Delay(again.attempts)))
  }

  datatype Fate = DeadLettered(attempts: int) | Vanished(attempts: int)

  /** Deliveries of a job that fails every time, and where it ends up. */
  function AlwaysFailing(job: Job, err: string, stamp: int): (nat, Fate)
    decreases job.maxRetries - job.attempts
  {
    match Judge(job, true, Fails(err))
    case Buried(tried, _) => (1, DeadLettered(tried.attempts))
    case Retried(tried, _) =>
      match Renacked(tried, err, stamp)
      case None => (1, Vanished(tried.attempts + 1))
      case Some(again) =>
        var (n, fate) := AlwaysFailing(again, err, stamp);
        (n + 1, fate)
  }

  /** The same on the memory queue, whose Nack does not count. */
  function AlwaysFailingInMemory(job: Job, err: string, stamp: int): (nat, Fate)
    decreases job.maxRetries - job.attempts
  {
    match Judge(job, true, Fails(err))
    case Buried(tried, _) => (1, DeadLettered(tried.attempts))
    case Retried(tried, _) =>
      var (n, fate) := AlwaysFailingInMemory(Rescheduled(tried, err, stamp), err, stamp);
      (n + 1, fate)
  }

  /** With `m` retries left: `m + 1` deliveries, and then always the list. */
  lemma {:induction false} MemoryAttemptCount(job: Job, err: string, stamp: int)
    requires job.attempts <= job.maxRetries
    ensures AlwaysFailingInMemory(job, err, stamp) ==
      (job.maxRetries - job.attempts + 1, DeadLettered(job.maxRetries + 1))
    decreases job.maxRetries - job.attempts
  {
    match Judge(job, true, Fails(err))
    case Buried(_, _) =>
    case Retried(tried, _) => MemoryAttemptCount(Rescheduled(tried, err, stamp), err, stamp);
  }

  /** With `m` retries left: `m / 2 + 1` deliveries and then the dead-letter list
      if `m` is even, `(m + 1) / 2` deliveries and then nowhere if it is odd. */
  lemma {:induction false} RedisAttemptCount(job: Job, err: string, stamp: int)
    requires job.attempts <= job.maxRetries
    ensures var m := job.maxRetries - job.attempts;
      AlwaysFailing(job, err, stamp) ==
        if m % 2 == 0 then (m / 2 + 1, DeadLettered(job.maxRetries + 1))
        else ((m + 1) / 2, Vanished(job.maxRetries + 1))
    decreases job.maxRetries - job.attempts
  {
    match Judge(job, true, Fails(err))
    case Buried(_, _) =>
    case Retried(tried, _) =>
      match Renacked(tried, err, stamp) {
        case None =>
        case Some(again) => RedisAttemptCount(again, err, stamp);
      }
  }

  /** A job reaches the dead-letter list exactly when its retries are even in
      number; the registry's two are. */
  lemma DeadLetteredIffEvenRetries(job: Job, err: string, stamp: int)
    requires job.attempts == 0 && job.maxRetries >= 0
    ensures AlwaysFailing(job, err, stamp).1.DeadLettered? <==> job.maxRetries % 2 == 0
    ensures job.maxRetries == 2 ==> AlwaysFailing(job, err, stamp) == (2, DeadLettered(3))
  {
    RedisAttemptCount(job, err, stamp);
  }
}
