/** Every run of the job system: any number of workers, enqueues, rotations,
    failures and a close, interleaved at the lock sections. */
module JobRuns {
  import opened Clock
  import opened JobQueue

  /** A job in the system: as it is now, as it was accepted, and when each of
      its attempts was delivered. */
  datatype Item = Item(job: Job, first: Job, starts: seq<int>)

  datatype State = State(
    now: int, deadListed: bool, closed: bool,
    items: seq<Item>, running: seq<Item>,
    acked: seq<Item>, dead: seq<Item>, dropped: seq<Item>,
    accepted: seq<Job>)

  datatype Action =
    | Tick(d: nat)
    | Enqueue(job: Job)
    | Dequeue
    | Finish(i: nat, registered: bool, outcome: Outcome, stamp: int)
    | Close

  function Init(now: int, deadListed: bool): State {
    State(now, deadListed, false, [], [], [], [], [], [])
  }

  function Last(s: seq<int>): int
    requires s != []
  {
    s[|s| - 1]
  }

  predicate Enabled(s: State, a: Action) {
    match a
    case Finish(i, _, _, stamp) =>
      i < |s.running| && s.running[i].starts != [] && Last(s.running[i].starts) <= stamp <= s.now
    case _ => true
  }

  function Without(items: seq<Item>, i: nat): seq<Item>
    requires i < |items|
  {
    items[..i] + items[i + 1..]
  }

  /** A worker is done with job `i`: Judge decides, and Nack drops a retry once
      the queue is closed. */
  function Settle(s: State, i: nat, v: Verdict, stamp: int): State
    requires i < |s.running|
  {
    var it := s.running[i];
    var rest := s.(running := Without(s.running, i));
    match v
    case Acked => rest.(acked := s.acked + [it])
    case Buried(job, _) =>
      if s.deadListed then rest.(dead := s.dead + [it.(job := job)])
      else rest.(dropped := s.dropped + [it.(job := job)])
    case Retried(job, err) =>
      if s.closed then rest.(dropped := s.dropped + [it.(job := job)])
      else rest.(items := s.items + [it.(job := Rescheduled(job, err, stamp))])
  }

  function Apply(s: State, a: Action): State
    requires Enabled(s, a)
  {
    match a
    case Tick(d) => s.(now := s.now + d)
    case Enqueue(job) =>
      if s.closed then s
      else s.(items := s.items + [Item(job, job, [])], accepted := s.accepted + [job])
    case Dequeue =>
      if s.closed || s.items == [] then s
      else
        var head := s.items[0];
        if head.job.runAfter > s.now then s.(items := s.items[1..] + [head])
        else s.(items := s.items[1..], running := s.running + [head.(starts := head.starts + [s.now])])
    case Finish(i, registered, outcome, stamp) =>
      Settle(s, i, Judge(s.running[i].job, registered, outcome), stamp)
    case Close => s.(closed := true)
  }

  ghost predicate Legal(s: State, run: seq<Action>)
    decreases |run|
  {
    run == [] || (Enabled(s, run[0]) && Legal(Apply(s, run[0]), run[1..]))
  }

  ghost function Exec(s: State, run: seq<Action>): State
    requires Legal(s, run)
    decreases |run|
  {
    if run == [] then s else Exec(Apply(s, run[0]), run[1..])
  }

  // ----- the steps are the queue's own -----

  function Jobs(items: seq<Item>): (js: seq<Job>)
    ensures |js| == |items|
    ensures forall i :: 0 <= i < |items| ==> js[i] == items[i].job
  {
    seq(|items|, i requires 0 <= i < |items| => items[i].job)
  }

  /** A Dequeue step changes the queue as one locked section of Dequeue does. */
  lemma DequeueIsTheQueues(s: State)
    ensures var (items, d) := DequeueSpec(Jobs(s.items), s.closed, s.now);
      var t := Apply(s, Dequeue);
      Jobs(t.items) == items
      && (d.Delivered? <==> |t.running| == |s.running| + 1)
      && (d.Delivered? ==> t.running[|s.running|].job == d.job)
  {
    var t := Apply(s, Dequeue);
    assert Jobs(t.items) == DequeueSpec(Jobs(s.items), s.closed, s.now).0;
  }

  /** Finishing a job changes the queue as RunJob does. */
  lemma FinishIsTheRegistrys(s: State, a: Action)
    requires a.Finish? && Enabled(s, a)
    ensures var v := Judge(s.running[a.i].job, a.registered, a.outcome);
      Jobs(Apply(s, a).items) ==
        Jobs(s.items) + (if v.Retried? && !s.closed then [Rescheduled(v.job, v.err, a.stamp)] else [])
  {
    var v, t := Judge(s.running[a.i].job, a.registered, a.outcome), Apply(s, a);
    if v.Retried? && !s.closed {
      assert t.items[..|s.items|] == s.items;
    }
  }

  /** What the end of a job does, case by case: a success is acknowledged, a
      failure that uses up the retries is buried, any other goes back on the
      queue, due exactly one backoff after the failure. */
  lemma FinishIsExact(s: State, a: Action)
    requires a.Finish? && Enabled(s, a)
    ensures var t, it := Apply(s, a), s.running[a.i];
      var tried := it.job.(attempts := it.job.attempts + 1);
      var gone := it.(job := tried);
      var err := if a.registered && a.outcome.Fails? then a.outcome.err else "no handler for job type " + it.job.kind;
      var again := it.(job := tried.(lastError := err, runAfter := a.stamp + Delay(tried.attempts)));
      var rest := s.(running := s.running[..a.i] + s.running[a.i + 1..]);
      t == if a.registered && a.outcome.Succeeds? then rest.(acked := s.acked + [it])
           else if tried.attempts > tried.maxRetries
           then if s.deadListed then rest.(dead := s.dead + [gone]) else rest.(dropped := s.dropped + [gone])
           else if s.closed then rest.(dropped := s.dropped + [gone]) else rest.(items := s.items + [again])
  {}

  /** The jobs offered while the queue was open, in order. */
  function Offered(run: seq<Action>): seq<Job> {
    if run == [] || run[0].Close? then []
    else (if run[0].Enqueue? then [run[0].job] else []) + Offered(run[1..])
  }

  /** Exactly the jobs offered before the queue is closed are accepted. */
  lemma {:induction false} AcceptedIsOffered(s: State, run: seq<Action>)
    requires Legal(s, run)
    ensures Exec(s, run).accepted == s.accepted + (if s.closed then [] else Offered(run))
    decreases |run|
  {
    hide Apply, Enabled;
    if run != [] {
      StepAccepts(s, run[0]);
      AcceptedIsOffered(Apply(s, run[0]), run[1..]);
      var now := if run[0].Enqueue? then [run[0].job] else [];
      var later := Offered(run[1..]);
      assert s.accepted + now + later == s.accepted + (now + later);
    }
  }

  lemma StepAccepts(s: State, a: Action)
    requires Enabled(s, a)
    ensures Apply(s, a).closed == (s.closed || a.Close?)
    ensures Apply(s, a).accepted == s.accepted + (if a.Enqueue? && !s.closed then [a.job] else [])
  {}

  /** A closed queue is frozen: nothing is added, delivered or put back, and
      workers only finish what they had. */
  lemma {:induction false} ClosedQueueIsFrozen(s: State, run: seq<Action>)
    requires Legal(s, run) && s.closed
    ensures var t := Exec(s, run);
      t.closed && t.items == s.items && t.accepted == s.accepted && forall it :: it in t.running ==> it in s.running
    decreases |run|
  {
    if run != [] {
      ClosedQueueIsFrozen(Apply(s, run[0]), run[1..]);
    }
  }

  // ----- conservation -----

  /** How many of `items` were accepted as `j`. */
  function Count(items: seq<Item>, j: Job): nat {
    if items == [] then 0 else (if items[0].first == j then 1 else 0) + Count(items[1..], j)
  }

  lemma CountConcat(a: seq<Item>, b: seq<Item>, j: Job)
    ensures Count(a + b, j) == Count(a, j) + Count(b, j)
  {
    if a == [] {
      assert a + b == b;
    } else {
      assert (a + b)[1..] == a[1..] + b;
      CountConcat(a[1..], b, j);
    }
  }

  lemma CountAppend(items: seq<Item>, it: Item, j: Job)
    ensures Count(items + [it], j) == Count(items, j) + (if it.first == j then 1 else 0)
  {
    CountConcat(items, [it], j);
  }

  lemma CountRemove(items: seq<Item>, i: nat, j: Job)
    requires i < |items|
    ensures Count(items, j) == Count(Without(items, i), j) + (if items[i].first == j then 1 else 0)
  {
    assert items[i..] == [items[i]] + items[i + 1..] && items == items[..i] + items[i..];
    CountConcat(items[..i], items[i..], j);
    CountConcat(items[..i], items[i + 1..], j);
  }

  /** Every acceptance of `j` is in exactly one place. */
  ghost predicate Conserved(s: State, j: Job) {
    multiset(s.accepted)[j] ==
      Count(s.items, j) + Count(s.running, j) + Count(s.acked, j) + Count(s.dead, j) + Count(s.dropped, j)
  }

  lemma SettleConserves(s: State, i: nat, v: Verdict, stamp: int, j: Job)
    requires i < |s.running| && Conserved(s, j)
    ensures Conserved(Settle(s, i, v, stamp), j)
  {
    CountRemove(s.running, i, j);
    var it := s.running[i];
    match v
    case Acked => CountAppend(s.acked, it, j);
    case Buried(job, _) =>
      CountAppend(s.dead, it.(job := job), j);
      CountAppend(s.dropped, it.(job := job), j);
    case Retried(job, err) =>
      CountAppend(s.dropped, it.(job := job), j);
      CountAppend(s.items, it.(job := Rescheduled(job, err, stamp)), j);
  }

  lemma DequeueConserves(s: State, j: Job)
    requires Enabled(s, Dequeue) && Conserved(s, j)
    ensures Conserved(Apply(s, Dequeue), j)
  {
    if s.closed || s.items == [] {
      return;
    }
    var head := s.items[0];
    if head.job.runAfter > s.now {
      CountAppend(s.items[1..], head, j);
    } else {
      CountAppend(s.running, head.(starts := head.starts + [s.now]), j);
    }
  }

  lemma ApplyConserves(s: State, a: Action, j: Job)
    requires Enabled(s, a) && Conserved(s, j)
    ensures Conserved(Apply(s, a), j)
  {
    match a
    case Tick(_) =>
    case Close =>
    case Enqueue(job) => CountAppend(s.items, Item(job, job, []), j);
    case Dequeue => DequeueConserves(s, j);
    case Finish(i, registered, outcome, stamp) =>
      SettleConserves(s, i, Judge(s.running[i].job, registered, outcome), stamp, j);
  }

  lemma {:induction false} ExecConserves(s: State, run: seq<Action>, j: Job)
    requires Legal(s, run) && Conserved(s, j)
    ensures Conserved(Exec(s, run), j)
    decreases |run|
  {
    if run != [] {
      ApplyConserves(s, run[0], j);
      ExecConserves(Apply(s, run[0]), run[1..], j);
    }
  }

  // ----- what every item remembers -----

  /** Attempts are delivered no earlier than the job was due, and each retry
      waits out the backoff of the attempt before it. */
  ghost predicate Spaced(it: Item) {
    (it.starts != [] ==> it.starts[0] >= it.first.runAfter) &&
    forall k :: 1 <= k < |it.starts| ==>
      it.starts[k] >= it.starts[k - 1] + Delay(it.first.attempts + k)
  }

  /** `it` was accepted as `first` and has been delivered `|starts|` times. */
  ghost predicate Tracked(it: Item, attempts: int) {
    it.job.attempts == attempts && it.job.maxRetries == it.first.maxRetries && Spaced(it)
  }

  ghost predicate Queued(it: Item) {
    Tracked(it, it.first.attempts + |it.starts|) &&
    (it.starts == [] ==> it.job == it.first) &&
    (it.starts != [] ==> it.job.attempts <= it.job.maxRetries
                         && it.job.runAfter >= Last(it.starts) + Delay(it.job.attempts))
  }

  ghost predicate Running(it: Item, now: int) {
    it.starts != [] && Last(it.starts) <= now &&
    Tracked(it, it.first.attempts + |it.starts| - 1) &&
    (|it.starts| > 1 ==> it.job.attempts <= it.job.maxRetries)
  }

  /** The number of attempts a job that keeps failing is given. */
  function Allowed(first: Job): (n: int)
    ensures n >= 1
  {
    if first.attempts >= first.maxRetries then 1 else first.maxRetries - first.attempts + 1
  }

  ghost predicate Done(it: Item) {
    1 <= |it.starts| <= Allowed(it.first) && Spaced(it)
  }

  ghost predicate Dead(it: Item) {
    Done(it) && |it.starts| == Allowed(it.first) && Tracked(it, it.first.attempts + |it.starts|)
  }

  ghost predicate Sound(s: State) {
    (forall it :: it in s.items ==> Queued(it)) &&
    (forall it :: it in s.running ==> Running(it, s.now)) &&
    (forall it :: it in s.acked ==> Done(it)) &&
    (forall it :: it in s.dead ==> Dead(it)) &&
    (forall it :: it in s.dropped ==> Done(it)) &&
    (s.deadListed && !s.closed ==> s.dropped == [])
  }

  lemma DeliverKeepsItem(it: Item, now: int)
    requires Queued(it) && it.job.runAfter <= now
    ensures Running(it.(starts := it.starts + [now]), now)
  {
    var t := it.(starts := it.starts + [now]);
    forall k | 1 <= k < |t.starts|
      ensures t.starts[k] >= t.starts[k - 1] + Delay(t.first.attempts + k) {}
  }

  lemma FinishKeepsItem(it: Item, now: int, registered: bool, outcome: Outcome, stamp: int)
    requires Running(it, now) && Last(it.starts) <= stamp
    ensures var v := Judge(it.job, registered, outcome);
      (v.Acked? ==> Done(it)) &&
      (v.Buried? ==> Dead(it.(job := v.job))) &&
      (v.Retried? ==> Done(it.(job := v.job)) && Queued(it.(job := Rescheduled(v.job, v.err, stamp))))
  {
    var v := Judge(it.job, registered, outcome);
    if !v.Acked? {
      assert Spaced(it.(job := v.job));
      assert v.Retried? ==> Spaced(it.(job := Rescheduled(v.job, v.err, stamp)));
    }
  }

  lemma SettleKeepsSound(s: State, i: nat, registered: bool, outcome: Outcome, stamp: int)
    requires Sound(s) && i < |s.running| && s.running[i].starts != [] && Last(s.running[i].starts) <= stamp
    ensures Sound(Settle(s, i, Judge(s.running[i].job, registered, outcome), stamp))
  {
    var it := s.running[i];
    assert it in s.running;
    FinishKeepsItem(it, s.now, registered, outcome, stamp);
  }

  lemma ApplyKeepsSound(s: State, a: Action)
    requires Enabled(s, a) && Sound(s)
    ensures Sound(Apply(s, a))
  {
    match a
    case Tick(_) =>
    case Close =>
    case Enqueue(_) =>
    case Dequeue =>
      if s.items != [] {
        var head := s.items[0];
        assert head in s.items;
        if head.job.runAfter <= s.now {
          DeliverKeepsItem(head, s.now);
        }
      }
    case Finish(i, registered, outcome, stamp) =>
      SettleKeepsSound(s, i, registered, outcome, stamp);
  }

  lemma {:induction false} ExecKeepsSound(s: State, run: seq<Action>)
    requires Legal(s, run) && Sound(s)
    ensures Sound(Exec(s, run))
    decreases |run|
  {
    if run != [] {
      ApplyKeepsSound(s, run[0]);
      ExecKeepsSound(Apply(s, run[0]), run[1..]);
    }
  }

  // ----- what holds of every run -----

  /** Every accepted job is queued, running, acknowledged, dead-lettered or
      dropped, exactly once; with a dead-letter list nothing is dropped while
      the queue is open. */
  lemma NoJobIsLost(now: int, deadListed: bool, run: seq<Action>)
    requires Legal(Init(now, deadListed), run)
    ensures var s := Exec(Init(now, deadListed), run); forall j :: Conserved(s, j)
    ensures var s := Exec(Init(now, deadListed), run);
      s.deadListed == deadListed && (deadListed && !s.closed ==> s.dropped == [])
  {
    ExecKeepsSound(Init(now, deadListed), run);
    ExecKeepsDeadListed(Init(now, deadListed), run);
    forall j ensures Conserved(Exec(Init(now, deadListed), run), j) {
      ExecConserves(Init(now, deadListed), run, j);
    }
  }

  lemma {:induction false} ExecKeepsDeadListed(s: State, run: seq<Action>)
    requires Legal(s, run)
    ensures Exec(s, run).deadListed == s.deadListed
    decreases |run|
  {
    if run != [] {
      ExecKeepsDeadListed(Apply(s, run[0]), run[1..]);
    }
  }

  /** A dead-lettered job has been delivered exactly as often as it was allowed
      when it was accepted, and its attempts say so; no job is delivered more
      often. A job accepted with no attempts is allowed `MaxRetries + 1`. */
  lemma ExactAttemptCount(now: int, deadListed: bool, run: seq<Action>, it: Item)
    requires Legal(Init(now, deadListed), run)
    ensures var s := Exec(Init(now, deadListed), run);
      (it in s.dead ==> |it.starts| == Allowed(it.first) && it.job.attempts == it.first.attempts + |it.starts|) &&
      (it in s.acked || it in s.dropped ==> 1 <= |it.starts| <= Allowed(it.first)) &&
      (it in s.items || it in s.running ==> |it.starts| <= Allowed(it.first))
    ensures it.first.attempts == 0 && it.first.maxRetries >= 0 ==> Allowed(it.first) == it.first.maxRetries + 1
  {
    ExecKeepsSound(Init(now, deadListed), run);
  }

  /** No attempt of a job accepted as `j` succeeds. */
  ghost predicate AlwaysFails(s: State, run: seq<Action>, j: Job)
    requires Legal(s, run)
    decreases |run|
  {
    run == [] ||
    ((run[0].Finish? && s.running[run[0].i].first == j ==> !(run[0].registered && run[0].outcome.Succeeds?)) &&
     AlwaysFails(Apply(s, run[0]), run[1..], j))
  }

  lemma {:induction false} FailingIsNeverAcked(s: State, run: seq<Action>, j: Job)
    requires Legal(s, run) && AlwaysFails(s, run, j) && Count(s.acked, j) == 0
    ensures Count(Exec(s, run).acked, j) == 0
    decreases |run|
  {
    if run != [] {
      var t := Apply(s, run[0]);
      if run[0].Finish? && t.acked != s.acked {
        CountAppend(s.acked, s.running[run[0].i], j);
      }
      FailingIsNeverAcked(t, run[1..], j);
    }
  }

  lemma {:induction false} CountedIsPresent(items: seq<Item>, j: Job)
    ensures Count(items, j) == 0 <==> forall it :: it in items ==> it.first != j
  {
    if items != [] {
      CountedIsPresent(items[1..], j);
      assert items == [items[0]] + items[1..];
    }
  }

  /** A job that always fails is dead-lettered: with a dead-letter list and an
      open queue, once it is neither queued nor running every acceptance of it is
      on the list, after exactly the attempts it was allowed. */
  lemma FailingJobsAreBuried(now: int, run: seq<Action>, j: Job)
    requires Legal(Init(now, true), run) && AlwaysFails(Init(now, true), run, j)
    requires var s := Exec(Init(now, true), run);
      !s.closed && forall it :: it in s.items + s.running ==> it.first != j
    ensures var s := Exec(Init(now, true), run);
      Count(s.dead, j) == multiset(s.accepted)[j] &&
      forall it :: it in s.dead && it.first == j ==>
        |it.starts| == Allowed(j) && it.job.attempts == j.attempts + Allowed(j)
  {
    var s := Exec(Init(now, true), run);
    NoJobIsLost(now, true, run);
    assert Conserved(s, j);
    FailingIsNeverAcked(Init(now, true), run, j);
    CountedIsPresent(s.items, j);
    CountedIsPresent(s.running, j);
    forall it | it in s.dead && it.first == j
      ensures |it.starts| == Allowed(j) && it.job.attempts == j.attempts + Allowed(j)
    {
      ExactAttemptCount(now, true, run, it);
    }
  }

  /** Every attempt of a job accepted as `j` that ends succeeds. */
  ghost predicate AlwaysSucceeds(s: State, run: seq<Action>, j: Job)
    requires Legal(s, run)
    decreases |run|
  {
    run == [] ||
    ((run[0].Finish? && s.running[run[0].i].first == j ==> run[0].registered && run[0].outcome.Succeeds?) &&
     AlwaysSucceeds(Apply(s, run[0]), run[1..], j))
  }

  ghost predicate TriedOnce(s: State, j: Job) {
    (forall it :: it in s.items && it.first == j ==> it.starts == []) &&
    (forall it :: it in s.running && it.first == j ==> |it.starts| == 1) &&
    (forall it :: it in s.acked && it.first == j ==> |it.starts| == 1) &&
    (forall it :: it in s.dead + s.dropped ==> it.first != j)
  }

  lemma ApplyKeepsTriedOnce(s: State, a: Action, j: Job)
    requires Enabled(s, a) && TriedOnce(s, j)
    requires a.Finish? && s.running[a.i].first == j ==> a.registered && a.outcome.Succeeds?
    ensures TriedOnce(Apply(s, a), j)
  {
    match a
    case Tick(_) =>
    case Close =>
    case Enqueue(_) =>
    case Dequeue =>
      if s.items != [] {
        assert s.items[0] in s.items;
      }
    case Finish(i, _, _, _) =>
      assert s.running[i] in s.running;
  }

  lemma {:induction false} ExecKeepsTriedOnce(s: State, run: seq<Action>, j: Job)
    requires Legal(s, run) && AlwaysSucceeds(s, run, j) && TriedOnce(s, j)
    ensures TriedOnce(Exec(s, run), j)
    decreases |run|
  {
    if run != [] {
      ApplyKeepsTriedOnce(s, run[0], j);
      ExecKeepsTriedOnce(Apply(s, run[0]), run[1..], j);
    }
  }

  /** A job that succeeds is never run again: it is delivered at most once and
      is neither buried nor dropped, so once it is neither queued nor running
      every acceptance of it is acknowledged after one attempt. */
  lemma SucceedingJobsRunOnce(now: int, deadListed: bool, run: seq<Action>, j: Job)
    requires var s := Init(now, deadListed); Legal(s, run) && AlwaysSucceeds(s, run, j)
    ensures var s := Exec(Init(now, deadListed), run); TriedOnce(s, j)
    ensures var s := Exec(Init(now, deadListed), run);
      (forall it :: it in s.items + s.running ==> it.first != j) ==> Count(s.acked, j) == multiset(s.accepted)[j]
  {
    var s := Exec(Init(now, deadListed), run);
    ExecKeepsTriedOnce(Init(now, deadListed), run, j);
    NoJobIsLost(now, deadListed, run);
    assert Conserved(s, j);
    CountedIsPresent(s.items, j);
    CountedIsPresent(s.running, j);
    CountedIsPresent(s.dead, j);
    CountedIsPresent(s.dropped, j);
  }

  /** What was acknowledged stays as it is: no later step delivers it again. */
  lemma {:induction false} AckedIsFinal(s: State, run: seq<Action>)
    requires Legal(s, run)
    ensures s.acked <= Exec(s, run).acked
    decreases |run|
  {
    if run != [] {
      AckedIsFinal(Apply(s, run[0]), run[1..]);
    }
  }

  /** The waits of the first `k` retries of a job accepted with `a` attempts. */
  function TotalDelay(a: int, k: nat): int {
    if k == 0 then 0 else TotalDelay(a, k - 1) + Delay(a + k)
  }

  lemma {:induction false} SpacingAddsUp(it: Item, k: nat)
    requires Spaced(it) && k < |it.starts|
    ensures it.starts[k] >= it.starts[0] + TotalDelay(it.first.attempts, k)
    decreases k
  {
    if k > 0 {
      SpacingAddsUp(it, k - 1);
    }
  }

  /** For a job accepted with no attempts the waits double up to a minute each. */
  lemma {:induction false} TotalDelayInSeconds(k: nat)
    ensures k <= 6 ==> TotalDelay(0, k) == (Pow2(k) - 1) * SECOND
    ensures k >= 6 ==> TotalDelay(0, k) == (63 + 60 * (k - 6)) * SECOND
  {
    assert Pow2(6) == 64;
    if k > 0 {
      TotalDelayInSeconds(k - 1);
      if k <= 6 {
        Pow2Grows(k - 1, 5);
        assert Pow2(5) == 32;
      } else {
        Pow2Grows(6, k - 1);
      }
    }
  }

  /** In every run a job starts no earlier than it is due, and attempt `k + 1`
      no earlier after the first than the waits of the `k` retries between. */
  lemma RetriesAreSpaced(now: int, deadListed: bool, run: seq<Action>, it: Item, k: nat)
    requires Legal(Init(now, deadListed), run)
    requires var s := Exec(Init(now, deadListed), run);
      it in s.items + s.running + s.acked + s.dead + s.dropped
    requires k < |it.starts|
    ensures it.starts[0] >= it.first.runAfter
    ensures it.starts[k] - it.starts[0] >= TotalDelay(it.first.attempts, k)
    ensures it.first.attempts == 0 && k <= 6 ==> it.starts[k] - it.starts[0] >= (Pow2(k) - 1) * SECOND
    ensures it.first.attempts == 0 && k >= 6 ==> it.starts[k] - it.starts[0] >= (63 + 60 * (k - 6)) * SECOND
  {
    ExecKeepsSound(Init(now, deadListed), run);
    SpacingAddsUp(it, k);
    TotalDelayInSeconds(k);
  }
}
