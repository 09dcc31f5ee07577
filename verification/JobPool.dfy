/** Any number of workers emptying the queue together, in every interleaving of
    their lock sections: no run goes on forever, none gets stuck, and every job
    ends acknowledged or dead-lettered. */
module JobPool {
  import opened JobQueue
  import opened JobDrain

  /** Where a worker stands: about to enter Dequeue, no earlier than `wake`;
      waiting for a signal; or running a job. */
  datatype Worker = Ready(wake: int) | Parked | Busy(job: Job)

  datatype Pool = Pool(now: int, items: seq<Job>, workers: seq<Worker>, acked: seq<Job>, dead: seq<Job>)

  datatype Step =
    | Dequeue(w: nat, at: int)
    | Finish(w: nat, at: int, registered: bool, outcome: Outcome, stamp: int, woken: nat)

  /** A retry signals: it wakes one waiting worker if there is one. */
  predicate Enabled(s: Pool, a: Step) {
    a.w < |s.workers| && s.now <= a.at &&
    match a
    case Dequeue(w, at) => s.workers[w].Ready? && s.workers[w].wake <= at
    case Finish(w, _, _, _, _, woken) =>
      s.workers[w].Busy? && (Parked in s.workers ==> woken < |s.workers| && s.workers[woken].Parked?)
  }

  function Settled(s: Pool, w: nat, at: int, v: Verdict, stamp: int, woken: nat): Pool
    requires w < |s.workers| && s.workers[w].Busy?
  {
    var free := s.(now := at, workers := s.workers[w := Ready(at)]);
    match v
    case Acked => free.(acked := s.acked + [s.workers[w].job])
    case Buried(job, _) => free.(dead := s.dead + [job])
    case Retried(job, err) =>
      free.(items := s.items + [Rescheduled(job, err, stamp)], workers := Signalled(free.workers, woken, at))
  }

  function Signalled(workers: seq<Worker>, woken: nat, at: int): seq<Worker> {
    if woken < |workers| && workers[woken].Parked? then workers[woken := Ready(at)] else workers
  }

  /** One lock section of Dequeue, or the end of a job. */
  function Next(s: Pool, a: Step): Pool
    requires Enabled(s, a)
  {
    match a
    case Dequeue(w, at) =>
      var (items, d) := DequeueSpec(s.items, false, at);
      var worker := match d
        case Delivered(job) => Busy(job)
        case Sleep(until) => Ready(until)
        case _ => Parked;
      s.(now := at, items := items, workers := s.workers[w := worker])
    case Finish(w, at, registered, outcome, stamp, woken) =>
      Settled(s, w, at, Judge(s.workers[w].job, registered, outcome), stamp, woken)
  }

  ghost predicate Legal(s: Pool, run: seq<Step>)
    decreases |run|
  {
    run == [] || (Enabled(s, run[0]) && Legal(Next(s, run[0]), run[1..]))
  }

  ghost function Exec(s: Pool, run: seq<Step>): Pool
    requires Legal(s, run)
    decreases |run|
  {
    if run == [] then s else Exec(Next(s, run[0]), run[1..])
  }

  function Start(now: int, items: seq<Job>, workers: nat): Pool {
    Pool(now, items, seq(workers, _ => Ready(now)), [], [])
  }

  // ----- sums over the workers -----

  function Sum(f: Worker -> nat, workers: seq<Worker>): nat {
    if workers == [] then 0 else f(workers[0]) + Sum(f, workers[1..])
  }

  lemma {:induction false} SumUpdate(f: Worker -> nat, workers: seq<Worker>, w: nat, x: Worker)
    requires w < |workers|
    ensures Sum(f, workers[w := x]) + f(workers[w]) == Sum(f, workers) + f(x)
  {
    if w > 0 {
      SumUpdate(f, workers[1..], w - 1, x);
      assert workers[w := x][1..] == workers[1..][w - 1 := x];
    }
  }

  lemma {:induction false} SumBounded(f: Worker -> nat, workers: seq<Worker>, m: nat)
    requires forall x :: f(x) <= m
    ensures Sum(f, workers) <= m * |workers|
  {
    if workers != [] {
      SumBounded(f, workers[1..], m);
      assert m * |workers| == m + m * (|workers| - 1);
    }
  }

  lemma {:induction false} SumSame(f: Worker -> nat, g: Worker -> nat, workers: seq<Worker>)
    requires forall x :: f(x) == g(x)
    ensures Sum(f, workers) == Sum(g, workers)
  {
    if workers != [] {
      SumSame(f, g, workers[1..]);
    }
  }

  // ----- the measure -----

  /** Steps that a worker's job may still cause: it ends, and each retry is a
      delivery and an end. */
  function BusyLoad(x: Worker): nat {
    if x.Busy? then 2 * Allowance(x.job) - 1 else 0
  }

  function Held(x: Worker): nat {
    if x.Busy? then 1 else 0
  }

  function Up(x: Worker): nat {
    if x.Parked? then 0 else 1
  }

  /** Queued jobs that the worker could still find not due. */
  ghost function Unripe(items: seq<Job>): Worker -> nat {
    (x: Worker) => if x.Ready? then NotDue(items, x.wake) else |items|
  }

  ghost function Load(s: Pool): nat {
    2 * Budget(s.items) + Sum(BusyLoad, s.workers)
  }

  /** Jobs queued or running. */
  ghost function Jobs(s: Pool): nat {
    |s.items| + Sum(Held, s.workers)
  }

  ghost function Rank(s: Pool, jobs: nat): nat {
    Times(Times(Load(s), jobs * |s.workers| + 1) + Sum(Unripe(s.items), s.workers), |s.workers| + 1)
    + Sum(Up, s.workers)
  }

  function Times(x: nat, y: nat): nat {
    x * y
  }

  lemma {:induction false} NotDueAtMostAll(items: seq<Job>, now: int)
    ensures NotDue(items, now) <= |items|
  {
    if items != [] {
      NotDueAtMostAll(items[1..], now);
    }
  }

  lemma UnripeBounded(s: Pool, jobs: nat)
    requires Jobs(s) <= jobs
    ensures Sum(Unripe(s.items), s.workers) <= jobs * |s.workers|
  {
    forall x ensures Unripe(s.items)(x) <= jobs {
      if x.Ready? {
        NotDueAtMostAll(s.items, x.wake);
      }
    }
    SumBounded(Unripe(s.items), s.workers, jobs);
  }

  lemma UpBounded(workers: seq<Worker>)
    ensures Sum(Up, workers) <= |workers|
  {
    SumBounded(Up, workers, 1);
  }

  lemma TimesStep(x: nat, y: nat, k: nat)
    requires x < y
    ensures Times(x, k) + k <= Times(y, k)
  {
    assert (y - x - 1) * k >= 0;
  }

  /** A drop in an earlier component outweighs any rise in a later one. */
  lemma LexicographicDrop(k: nat, w: nat, l: nat, u: nat, a: nat, l': nat, u': nat, a': nat)
    requires u' < k && a' < w
    requires l' < l || (l' == l && u' < u) || (l' == l && u' == u && a' < a)
    ensures Times(Times(l', k) + u', w) + a' < Times(Times(l, k) + u, w) + a
  {
    hide Times;
    if l' < l {
      TimesStep(l', l, k);
    }
    if l' < l || u' < u {
      TimesStep(Times(l', k) + u', Times(l, k) + u, w);
    }
  }

  /** What every step does to the three components. */
  ghost predicate Drops(s: Pool, t: Pool) {
    |t.workers| == |s.workers| && Jobs(t) <= Jobs(s) &&
    (Load(t) < Load(s) ||
     (Load(t) == Load(s) &&
      (Sum(Unripe(t.items), t.workers) < Sum(Unripe(s.items), s.workers) ||
       (Sum(Unripe(t.items), t.workers) == Sum(Unripe(s.items), s.workers) &&
        Sum(Up, t.workers) < Sum(Up, s.workers)))))
  }

  lemma DropsRank(s: Pool, t: Pool, jobs: nat)
    requires Drops(s, t) && Jobs(s) <= jobs
    ensures Rank(t, jobs) < Rank(s, jobs)
  {
    UnripeBounded(t, jobs);
    UpBounded(t.workers);
    hide Times;
    LexicographicDrop(jobs * |s.workers| + 1, |s.workers| + 1,
                      Load(s), Sum(Unripe(s.items), s.workers), Sum(Up, s.workers),
                      Load(t), Sum(Unripe(t.items), t.workers), Sum(Up, t.workers));
  }

  lemma DeliveryDrops(s: Pool, a: Step)
    requires a.Dequeue? && Enabled(s, a) && s.items != [] && s.items[0].runAfter <= a.at
    ensures Drops(s, Next(s, a))
  {
    SumUpdate(BusyLoad, s.workers, a.w, Busy(s.items[0]));
    SumUpdate(Held, s.workers, a.w, Busy(s.items[0]));
  }

  lemma RotationDrops(s: Pool, a: Step)
    requires a.Dequeue? && Enabled(s, a) && s.items != [] && s.items[0].runAfter > a.at
    ensures Drops(s, Next(s, a))
  {
    var head, t := s.items[0], Next(s, a);
    var x := Ready(head.runAfter);
    BudgetAppend(s.items[1..], head);
    SumUpdate(BusyLoad, s.workers, a.w, x);
    SumUpdate(Held, s.workers, a.w, x);
    RotateAndSleep(s.items, s.workers[a.w].wake, head.runAfter);
    forall y ensures Unripe(t.items)(y) == Unripe(s.items)(y) {
      if y.Ready? {
        NotDueAppend(s.items[1..], head, y.wake);
      }
    }
    SumSame(Unripe(t.items), Unripe(s.items), t.workers);
    SumUpdate(Unripe(s.items), s.workers, a.w, x);
  }

  lemma ParkingDrops(s: Pool, a: Step)
    requires a.Dequeue? && Enabled(s, a) && s.items == []
    ensures Drops(s, Next(s, a))
  {
    SumUpdate(BusyLoad, s.workers, a.w, Parked);
    SumUpdate(Held, s.workers, a.w, Parked);
    SumUpdate(Unripe(s.items), s.workers, a.w, Parked);
    SumUpdate(Up, s.workers, a.w, Parked);
  }

  lemma FinishDrops(s: Pool, a: Step)
    requires a.Finish? && Enabled(s, a)
    ensures Drops(s, Next(s, a))
  {
    var job := s.workers[a.w].job;
    var v := Judge(job, a.registered, a.outcome);
    var freed := s.workers[a.w := Ready(a.at)];
    SumUpdate(BusyLoad, s.workers, a.w, Ready(a.at));
    SumUpdate(Held, s.workers, a.w, Ready(a.at));
    if v.Retried? {
      BudgetAppend(s.items, Rescheduled(v.job, v.err, a.stamp));
      if a.woken < |freed| && freed[a.woken].Parked? {
        SumUpdate(BusyLoad, freed, a.woken, Ready(a.at));
        SumUpdate(Held, freed, a.woken, Ready(a.at));
      }
    }
  }

  lemma StepDrops(s: Pool, a: Step)
    requires Enabled(s, a)
    ensures Drops(s, Next(s, a))
  {
    hide Drops, Next;
    if a.Finish? {
      FinishDrops(s, a);
    } else if s.items == [] {
      ParkingDrops(s, a);
    } else if s.items[0].runAfter > a.at {
      RotationDrops(s, a);
    } else {
      DeliveryDrops(s, a);
    }
  }

  /** No run of any number of workers goes on forever, whatever the schedule, the
      clock and the handlers do. */
  lemma {:induction false} EveryRunEnds(s: Pool, run: seq<Step>, jobs: nat)
    requires Legal(s, run) && Jobs(s) <= jobs
    ensures |run| <= Rank(s, jobs)
    decreases |run|
  {
    hide Rank, Next, Enabled;
    if run != [] {
      var t := Next(s, run[0]);
      StepDrops(s, run[0]);
      DropsRank(s, t, jobs);
      assert Jobs(t) <= Jobs(s);
      EveryRunEnds(t, run[1..], jobs);
    }
  }

  // ----- no run gets stuck -----

  /** Somebody is up while there are jobs. */
  ghost predicate Attended(s: Pool) {
    s.items != [] ==> exists w :: 0 <= w < |s.workers| && !s.workers[w].Parked?
  }

  lemma NextKeepsAttended(s: Pool, a: Step)
    requires Enabled(s, a) && Attended(s)
    ensures Attended(Next(s, a))
  {
    var t := Next(s, a);
    assert (a.Dequeue? && s.items == []) || !t.workers[a.w].Parked?;
  }

  /** A worker that is up can take its step: Dequeue at any later reading of the
      clock, and the end of its job with any outcome. */
  lemma UpCanStep(s: Pool, w: nat, at: int, registered: bool, outcome: Outcome, stamp: int) returns (a: Step)
    requires w < |s.workers| && !s.workers[w].Parked?
    requires s.now <= at && (s.workers[w].Ready? ==> s.workers[w].wake <= at)
    ensures Enabled(s, a) && a.w == w && a.at == at
    ensures a.Finish? ==> a.registered == registered && a.outcome == outcome && a.stamp == stamp
  {
    if s.workers[w].Ready? {
      a := Dequeue(w, at);
    } else {
      var woken: nat := 0;
      if Parked in s.workers {
        woken :| woken < |s.workers| && s.workers[woken] == Parked;
      }
      a := Finish(w, at, registered, outcome, stamp, woken);
    }
  }

  // ----- where the jobs end up -----

  ghost function HeldAs(c: Job): Worker -> nat {
    (x: Worker) => if x.Busy? && Core(x.job) == c then 1 else 0
  }

  /** Every job of `orig` with core `c` is queued, running, acknowledged or
      dead-lettered, once. */
  ghost predicate Tallied(orig: seq<Job>, s: Pool, c: Job) {
    Count(orig, c) == Count(s.items, c) + Sum(HeldAs(c), s.workers) + Count(s.acked, c) + Count(s.dead, c)
  }

  lemma DequeueKeepsTally(orig: seq<Job>, s: Pool, a: Step, c: Job)
    requires a.Dequeue? && Enabled(s, a) && Tallied(orig, s, c)
    ensures Tallied(orig, Next(s, a), c)
  {
    SumUpdate(HeldAs(c), s.workers, a.w, Next(s, a).workers[a.w]);
    if s.items != [] && s.items[0].runAfter > a.at {
      CountAppend(s.items[1..], s.items[0], c);
    }
  }

  lemma FinishKeepsTally(orig: seq<Job>, s: Pool, a: Step, c: Job)
    requires a.Finish? && Enabled(s, a) && Tallied(orig, s, c)
    ensures Tallied(orig, Next(s, a), c)
  {
    var job := s.workers[a.w].job;
    var freed := s.workers[a.w := Ready(a.at)];
    SumUpdate(HeldAs(c), s.workers, a.w, Ready(a.at));
    match Judge(job, a.registered, a.outcome)
    case Acked => CountAppend(s.acked, job, c);
    case Buried(tried, _) => CountAppend(s.dead, tried, c);
    case Retried(tried, err) =>
      CountAppend(s.items, Rescheduled(tried, err, a.stamp), c);
      if a.woken < |freed| && freed[a.woken].Parked? {
        SumUpdate(HeldAs(c), freed, a.woken, Ready(a.at));
      }
  }

  /** Attempts of queued and running jobs are not used up; those of dead ones
      just are. */
  ghost predicate InBounds(s: Pool) {
    Live(s.items) &&
    (forall w :: 0 <= w < |s.workers| && s.workers[w].Busy? ==>
      s.workers[w].job.attempts <= s.workers[w].job.maxRetries) &&
    (forall job :: job in s.dead ==> job.attempts == job.maxRetries + 1)
  }

  lemma NextKeepsInBounds(s: Pool, a: Step)
    requires Enabled(s, a) && InBounds(s)
    ensures InBounds(Next(s, a))
  {
    if s.items != [] {
      assert s.items[0] in s.items;
    }
  }

  lemma {:induction false} ExecKeeps(orig: seq<Job>, s: Pool, run: seq<Step>, c: Job)
    requires Legal(s, run) && Attended(s) && Tallied(orig, s, c)
    ensures var t := Exec(s, run);
      Attended(t) && Tallied(orig, t, c) && |t.workers| == |s.workers| && (InBounds(s) ==> InBounds(t))
    decreases |run|
  {
    hide Next, Tallied, InBounds, Attended;
    if run != [] {
      NextKeepsAttended(s, run[0]);
      StepDrops(s, run[0]);
      if run[0].Dequeue? {
        DequeueKeepsTally(orig, s, run[0], c);
      } else {
        FinishKeepsTally(orig, s, run[0], c);
      }
      if InBounds(s) {
        NextKeepsInBounds(s, run[0]);
      }
      ExecKeeps(orig, Next(s, run[0]), run[1..], c);
    }
  }

  ghost predicate AllParked(s: Pool) {
    forall w :: 0 <= w < |s.workers| ==> s.workers[w].Parked?
  }

  lemma {:induction false} NobodyHolds(workers: seq<Worker>, c: Job)
    requires forall w :: 0 <= w < |workers| ==> workers[w].Parked?
    ensures Sum(HeldAs(c), workers) == 0
  {
    if workers != [] {
      assert workers[0].Parked?;
      NobodyHolds(workers[1..], c);
    }
  }

  lemma {:induction false} NobodyStarts(now: int, n: nat, c: Job)
    ensures Sum(HeldAs(c), seq(n, _ => Ready(now))) == 0
  {
    if n > 0 {
      NobodyStarts(now, n - 1, c);
      assert seq(n, _ => Ready(now))[1..] == seq(n - 1, _ => Ready(now));
    }
  }

  /** A pool cannot go on exactly when all its workers are waiting. */
  lemma StuckIffAllParked(s: Pool)
    ensures AllParked(s) <==> forall a :: !Enabled(s, a)
  {
    if !AllParked(s) {
      var w: nat :| w < |s.workers| && !s.workers[w].Parked?;
      var at := if s.workers[w].Ready? && s.workers[w].wake > s.now then s.workers[w].wake else s.now;
      var a := UpCanStep(s, w, at, true, Succeeds, at);
      assert Enabled(s, a);
    }
  }

  lemma RunKeeps(now: int, items: seq<Job>, workers: nat, run: seq<Step>, c: Job)
    requires workers > 0 && Legal(Start(now, items, workers), run)
    ensures var s := Exec(Start(now, items, workers), run);
      Attended(s) && Tallied(items, s, c) && |s.workers| == workers && (Live(items) ==> InBounds(s))
  {
    var first := Start(now, items, workers);
    assert !first.workers[0].Parked?;
    NobodyStarts(now, workers, c);
    assert Live(items) ==> InBounds(first);
    hide Legal, Exec, InBounds;
    ExecKeeps(items, first, run, c);
  }

  lemma ParkedIsDone(orig: seq<Job>, s: Pool, c: Job)
    requires AllParked(s) && Attended(s) && Tallied(orig, s, c)
    ensures s.items == [] && Count(orig, c) == Count(s.acked, c) + Count(s.dead, c)
  {
    NobodyHolds(s.workers, c);
  }

  /** Every job that ends in the run ends alike: with success, or not. */
  ghost predicate AllEnd(run: seq<Step>, success: bool) {
    forall k :: 0 <= k < |run| && run[k].Finish? ==> (run[k].registered && run[k].outcome.Succeeds? <==> success)
  }

  lemma {:induction false} EndsAlike(s: Pool, run: seq<Step>, success: bool)
    requires Legal(s, run) && AllEnd(run, success)
    ensures success ==> Exec(s, run).dead == s.dead
    ensures !success ==> Exec(s, run).acked == s.acked
    decreases |run|
  {
    if run != [] {
      assert run[0].Finish? ==> (run[0].registered && run[0].outcome.Succeeds? <==> success);
      EndsAlike(Next(s, run[0]), run[1..], success);
    }
  }

  /** If every handler succeeds, the pool leaves every job acknowledged and none
      dead-lettered; if none does, the other way round. */
  lemma PoolSortsByOutcome(now: int, items: seq<Job>, workers: nat, run: seq<Step>, success: bool, c: Job)
    requires workers > 0 && Legal(Start(now, items, workers), run) && AllEnd(run, success)
    ensures var s := Exec(Start(now, items, workers), run);
      (if success then s.dead == [] else s.acked == []) &&
      (AllParked(s) ==> Count(items, c) == Count(if success then s.acked else s.dead, c))
  {
    EndsAlike(Start(now, items, workers), run, success);
    PoolDrains(now, items, workers, run, c);
  }

  /** Any number of workers drain an open queue, in every interleaving: a run has
      at most `Rank` steps; it can go on while any worker is up; and once all
      are waiting, every job has been acknowledged or dead-lettered exactly once,
      the dead ones after exactly one attempt too many. */
  lemma PoolDrains(now: int, items: seq<Job>, workers: nat, run: seq<Step>, c: Job)
    requires workers > 0 && Legal(Start(now, items, workers), run)
    ensures |run| <= Rank(Start(now, items, workers), Jobs(Start(now, items, workers)))
    ensures var s := Exec(Start(now, items, workers), run);
      AllParked(s) <==> forall a :: !Enabled(s, a)
    ensures var s := Exec(Start(now, items, workers), run);
      AllParked(s) ==> s.items == [] && Count(items, c) == Count(s.acked, c) + Count(s.dead, c)
    ensures var s := Exec(Start(now, items, workers), run);
      Live(items) ==> forall job :: job in s.dead ==> job.attempts == job.maxRetries + 1
  {
    var first := Start(now, items, workers);
    EveryRunEnds(first, run, Jobs(first));
    RunKeeps(now, items, workers, run, c);
    hide Legal, Exec, Enabled, Rank, Jobs, Attended, Tallied, AllParked, Start, Count;
    var s := Exec(first, run);
    StuckIffAllParked(s);
    if AllParked(s) {
      ParkedIsDone(items, s, c);
    }
  }
}
