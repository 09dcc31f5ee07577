/** One worker emptying the queue: it always ends, and every job ends
    acknowledged or dead-lettered. */
module JobDrain {
  import opened JobQueue

  /** The part of a job that no attempt changes. */
  function Core(job: Job): Job {
    job.(attempts := 0, runAfter := 0, lastError := "")
  }

  /** How many of `jobs` have core `c`. */
  function Count(jobs: seq<Job>, c: Job): nat {
    if jobs == [] then 0 else (if Core(jobs[0]) == c then 1 else 0) + Count(jobs[1..], c)
  }

  /** Deliveries that a job may still use: at least one, even past its retries. */
  function Allowance(job: Job): (n: nat)
    ensures n >= 1
  {
    if job.attempts > job.maxRetries then 1 else job.maxRetries + 1 - job.attempts
  }

  ghost function Budget(jobs: seq<Job>): nat {
    if jobs == [] then 0 else Allowance(jobs[0]) + Budget(jobs[1..])
  }

  /** Queued jobs that still have retries. */
  ghost predicate Live(jobs: seq<Job>) {
    forall job :: job in jobs ==> job.attempts <= job.maxRetries
  }

  /** Queued jobs that are not due yet. */
  ghost function NotDue(jobs: seq<Job>, now: int): nat {
    if jobs == [] then 0 else (if jobs[0].runAfter > now then 1 else 0) + NotDue(jobs[1..], now)
  }

  lemma CountAppend(jobs: seq<Job>, job: Job, c: Job)
    ensures Count(jobs + [job], c) == Count(jobs, c) + (if Core(job) == c then 1 else 0)
  {
    if jobs != [] {
      assert (jobs + [job])[1..] == jobs[1..] + [job];
      CountAppend(jobs[1..], job, c);
    }
  }

  lemma BudgetAppend(jobs: seq<Job>, job: Job)
    ensures Budget(jobs + [job]) == Budget(jobs) + Allowance(job)
  {
    if jobs != [] {
      assert (jobs + [job])[1..] == jobs[1..] + [job];
      BudgetAppend(jobs[1..], job);
    }
  }

  lemma NotDueAppend(jobs: seq<Job>, job: Job, now: int)
    ensures NotDue(jobs + [job], now) == NotDue(jobs, now) + (if job.runAfter > now then 1 else 0)
  {
    if jobs != [] {
      assert (jobs + [job])[1..] == jobs[1..] + [job];
      NotDueAppend(jobs[1..], job, now);
    }
  }

  lemma NotDueLater(jobs: seq<Job>, now: int, later: int)
    requires now <= later
    ensures NotDue(jobs, later) <= NotDue(jobs, now)
  {}

  /** Rotating a job that is not due and sleeping until it is leaves fewer jobs not due. */
  lemma RotateAndSleep(jobs: seq<Job>, now: int, later: int)
    requires jobs != [] && now < jobs[0].runAfter <= later
    ensures var rotated := jobs[1..] + [jobs[0]];
      Budget(rotated) == Budget(jobs) && NotDue(rotated, later) < NotDue(jobs, now)
  {
    BudgetAppend(jobs[1..], jobs[0]);
    NotDueAppend(jobs[1..], jobs[0], later);
    NotDueLater(jobs[1..], now, later);
  }

  function Buried(dead: seq<DeadEntry>): (jobs: seq<Job>)
    ensures |jobs| == |dead|
  {
    if dead == [] then [] else [dead[0].job] + Buried(dead[1..])
  }

  lemma BuriedAppend(dead: seq<DeadEntry>, e: DeadEntry)
    ensures Buried(dead + [e]) == Buried(dead) + [e.job]
  {
    if dead != [] {
      assert (dead + [e])[1..] == dead[1..] + [e];
      BuriedAppend(dead[1..], e);
    }
  }

  /** Every job of `orig` with core `c` is still queued, acknowledged or dead-lettered, once. */
  ghost predicate Accounted(orig: seq<Job>, queued: seq<Job>, acked: seq<Job>, dead: seq<DeadEntry>, c: Job) {
    Count(orig, c) == Count(queued, c) + Count(acked, c) + Count(Buried(dead), c)
  }

  ghost predicate UsedUp(dead: seq<DeadEntry>) {
    forall e :: e in dead ==> e.job.attempts > e.job.maxRetries
  }

  ghost predicate JustUsedUp(dead: seq<DeadEntry>) {
    forall e :: e in dead ==> e.job.attempts == e.job.maxRetries + 1
  }

  /** Where the run of the job at the head leaves the queue and the records. */
  ghost function QueueAfter(jobs: seq<Job>, v: Verdict, stamp: int): seq<Job>
    requires jobs != []
  {
    jobs[1..] + (if v.Retried? then [Rescheduled(v.job, v.err, stamp)] else [])
  }

  lemma RunUsesBudget(jobs: seq<Job>, v: Verdict, registered: bool, outcome: Outcome, stamp: int)
    requires jobs != [] && v == Judge(jobs[0], registered, outcome)
    ensures Budget(QueueAfter(jobs, v, stamp)) < Budget(jobs)
    ensures Live(jobs) ==> Live(QueueAfter(jobs, v, stamp))
    ensures v.Buried? ==> v.job.attempts > v.job.maxRetries
    ensures v.Buried? && Live(jobs) ==> v.job.attempts == v.job.maxRetries + 1
  {
    assert jobs[0] in jobs;
    if v.Retried? {
      BudgetAppend(jobs[1..], Rescheduled(v.job, v.err, stamp));
    } else {
      assert jobs[1..] + [] == jobs[1..];
    }
  }

  lemma RunKeepsTrack(orig: seq<Job>, jobs: seq<Job>, acked: seq<Job>, dead: seq<DeadEntry>, v: Verdict,
                      registered: bool, outcome: Outcome, stamp: int, c: Job)
    requires jobs != [] && Accounted(orig, jobs, acked, dead, c) && v == Judge(jobs[0], registered, outcome)
    ensures Accounted(orig, QueueAfter(jobs, v, stamp), AckedAfter(jobs, v, acked), DeadAfter(jobs, v, dead), c)
  {
    match v
    case Acked =>
      CountAppend(acked, jobs[0], c);
      assert QueueAfter(jobs, v, stamp) == jobs[1..];
    case Buried(job, err) =>
      BuriedAppend(dead, DeadEntry(job, err, jobs[0].enqueuedAt));
      CountAppend(Buried(dead), job, c);
      assert QueueAfter(jobs, v, stamp) == jobs[1..];
    case Retried(job, err) =>
      CountAppend(jobs[1..], Rescheduled(job, err, stamp), c);
  }

  ghost function AckedAfter(jobs: seq<Job>, v: Verdict, acked: seq<Job>): seq<Job>
    requires jobs != []
  {
    if v.Acked? then acked + [jobs[0]] else acked
  }

  ghost function DeadAfter(jobs: seq<Job>, v: Verdict, dead: seq<DeadEntry>): seq<DeadEntry>
    requires jobs != []
  {
    if v.Buried? then dead + [DeadEntry(v.job, v.err, jobs[0].enqueuedAt)] else dead
  }

  /** Every job has a handler. */
  ghost predicate Handled(jobs: seq<Job>, handlers: set<string>) {
    forall job :: job in jobs ==> job.kind in handlers
  }

  /** One pass of the worker loop: one locked section of Dequeue, then the sleep
      or the job. It uses up budget, or leaves fewer jobs not due. */
  method Pass(r: Registry, now: int, outcome: Outcome, lag: nat, ghost orig: seq<Job>,
              acked: seq<Job>, ghost buried: seq<DeadEntry>)
    returns (later: int, acked': seq<Job>, ghost buried': seq<DeadEntry>)
    requires !r.queue.closed && r.dead != null && r.queue.items != []
    requires forall c :: Accounted(orig, r.queue.items, acked, buried, c)
    modifies r.queue, r.dead
    ensures !r.queue.closed && (UsedUp(buried) ==> UsedUp(buried'))
    ensures Live(old(r.queue.items)) && JustUsedUp(buried) ==> Live(r.queue.items) && JustUsedUp(buried')
    ensures Budget(r.queue.items) < Budget(old(r.queue.items))
      || (Budget(r.queue.items) == Budget(old(r.queue.items))
          && NotDue(r.queue.items, later) < NotDue(old(r.queue.items), now))
    ensures buried <= buried' && r.dead.entries == old(r.dead.entries) + buried'[|buried|..]
    ensures forall c :: Accounted(orig, r.queue.items, acked', buried', c)
    ensures outcome.Fails? ==> acked' == acked
    ensures Handled(old(r.queue.items), r.handlers) ==>
      Handled(r.queue.items, r.handlers) && (outcome.Succeeds? ==> buried' == buried)
  {
    ghost var before := r.queue.items;
    var d := r.queue.DequeueLocked(now);
    match d
    case Sleep(until) =>
      later, acked', buried' := until + lag, acked, buried;
      RotateAndSleep(before, now, later);
      forall c ensures Accounted(orig, r.queue.items, acked, buried, c) {
        assert Accounted(orig, before, acked, buried, c);
        CountAppend(before[1..], before[0], c);
      }
    case Delivered(job) =>
      later := now + lag;
      var v := r.RunJob(job, outcome, later);
      ghost var registered := job.kind in r.handlers;
      RunUsesBudget(before, v, registered, outcome, later);
      assert r.queue.items == QueueAfter(before, v, later);
      acked' := if v.Acked? then acked + [job] else acked;
      buried' := DeadAfter(before, v, buried);
      forall c ensures Accounted(orig, r.queue.items, acked', buried', c) {
        assert Accounted(orig, before, acked, buried, c);
        RunKeepsTrack(orig, before, acked, buried, v, registered, outcome, later, c);
      }
  }

  /** The worker loop over an open queue that nobody adds to, with arbitrary
      handler outcomes and delays; if every handler succeeds, every job is
      acknowledged, and if every handler fails, every job is dead-lettered. Each pass is one locked section of Dequeue,
      then the sleep or the job; the decreasing pair is the budget and the
      number of jobs not yet due. */
  method Drain(r: Registry, start: int, outcomes: nat -> Outcome, lag: nat -> nat)
    returns (acked: seq<Job>, ghost buried: seq<DeadEntry>)
    requires !r.queue.closed && r.dead != null
    modifies r.queue, r.dead
    ensures r.queue.items == [] && r.dead.entries == old(r.dead.entries) + buried
    ensures forall c :: Accounted(old(r.queue.items), [], acked, buried, c)
    ensures UsedUp(buried) && (Live(old(r.queue.items)) ==> JustUsedUp(buried))
    ensures (forall n :: outcomes(n).Succeeds?) && Handled(old(r.queue.items), r.handlers) ==>
      buried == [] && forall c :: Count(old(r.queue.items), c) == Count(acked, c)
    ensures (forall n :: outcomes(n).Fails?) ==>
      acked == [] && forall c :: Count(old(r.queue.items), c) == Count(Buried(buried), c)
  {
    var now, i := start, 0;
    acked, buried := [], [];
    while r.queue.items != []
      invariant !r.queue.closed && UsedUp(buried)
      invariant Live(old(r.queue.items)) ==> Live(r.queue.items) && JustUsedUp(buried)
      invariant r.dead.entries == old(r.dead.entries) + buried
      invariant (forall n :: outcomes(n).Fails?) ==> acked == []
      invariant Handled(old(r.queue.items), r.handlers) ==> Handled(r.queue.items, r.handlers)
      invariant (forall n :: outcomes(n).Succeeds?) && Handled(old(r.queue.items), r.handlers) ==> buried == []
      invariant forall c :: Accounted(old(r.queue.items), r.queue.items, acked, buried, c)
      decreases Budget(r.queue.items), NotDue(r.queue.items, now)
    {
      now, acked, buried := Pass(r, now, outcomes(i), lag(i), old(r.queue.items), acked, buried);
      i := i + 1;
    }
    forall c ensures Count(old(r.queue.items), c) == Count(acked, c) + Count(Buried(buried), c) {
      assert Accounted(old(r.queue.items), r.queue.items, acked, buried, c);
    }
  }
}
