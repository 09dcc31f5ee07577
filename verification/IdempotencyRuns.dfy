/** Every run of the idempotency store: calls of Run split at Lookup and Save,
    interleaved with each other and with sweeps. */
module IdempotencyRuns {
  import opened Wrappers
  import opened ExpiringMap
  import opened Idempotency

  datatype Config = Config(ttl: int, hash: seq<bv8> -> string)

  /** A call that is running its request. */
  datatype Call = Call(key: string, request: seq<bv8>, start: int)

  /** A request that was run and saved. */
  datatype Execution = Execution(key: string, request: seq<bv8>, response: Response, start: int, saved: int)

  datatype State = State(now: int, entries: Entries, calls: map<nat, Call>, log: seq<Execution>)

  datatype Action =
    | Tick(d: nat)
    | Sweeping
    | Begin(call: nat, key: string, request: seq<bv8>)
    | Finish(call: nat, outcome: Result<Response, string>, stored: int)

  predicate Enabled(s: State, a: Action) {
    match a
    case Begin(c, _, _) => c !in s.calls
    case Finish(c, _, _) => c in s.calls
    case _ => true
  }

  function Apply(cfg: Config, s: State, a: Action): State
    requires Enabled(s, a)
  {
    match a
    case Tick(d) => s.(now := s.now + d)
    case Sweeping => s.(entries := Sweep(s.entries, s.now))
    case Begin(c, key, request) =>
      if LookupSpec(s.entries, key, cfg.hash(request), s.now) == Err(NotFound)
      then s.(entries := AfterLookup(s.entries, key, s.now), calls := s.calls[c := Call(key, request, s.now)])
      else s
    case Finish(c, outcome, stored) =>
      var Call(key, request, start) := s.calls[c];
      var ended := s.(calls := s.calls - {c});
      match outcome
      case Err(_) => ended
      case Ok(resp) => ended.(
        entries := AfterSave(s.entries, key, Saved(resp, cfg.hash(request), stored), s.now + cfg.ttl),
        log := s.log + [Execution(key, request, resp, start, s.now)])
  }

  ghost predicate Legal(cfg: Config, s: State, run: seq<Action>)
    decreases |run|
  {
    run == [] || (Enabled(s, run[0]) && Legal(cfg, Apply(cfg, s, run[0]), run[1..]))
  }

  ghost function Exec(cfg: Config, s: State, run: seq<Action>): State
    requires Legal(cfg, s, run)
    decreases |run|
  {
    if run == [] then s else Exec(cfg, Apply(cfg, s, run[0]), run[1..])
  }

  function Init(now: int): State {
    State(now, map[], map[], [])
  }

  // ----- the steps are the store's own -----

  /** A call that nothing interrupts changes the store as Run does. */
  lemma CallIsTheStoresRun(cfg: Config, s: State, c: nat, key: string, request: seq<bv8>,
                           outcome: Result<Response, string>, d: nat, stored: int)
    requires c !in s.calls
    ensures var hash := cfg.hash(request);
      if LookupSpec(s.entries, key, hash, s.now) != Err(NotFound) then Apply(cfg, s, Begin(c, key, request)) == s
      else
        var run := [Begin(c, key, request), Tick(d), Finish(c, outcome, stored)];
        Legal(cfg, s, run) && Exec(cfg, s, run).calls == s.calls &&
        Exec(cfg, s, run).entries ==
          match outcome
          case Err(_) => AfterLookup(s.entries, key, s.now)
          case Ok(resp) =>
            AfterSave(AfterLookup(s.entries, key, s.now), key, Saved(resp, hash, stored), s.now + d + cfg.ttl)
  {
    if LookupSpec(s.entries, key, cfg.hash(request), s.now) == Err(NotFound) {
      var run := [Begin(c, key, request), Tick(d), Finish(c, outcome, stored)];
      var s1 := Apply(cfg, s, run[0]);
      var s2 := Apply(cfg, s1, run[1]);
      var s3 := Apply(cfg, s2, run[2]);
      assert run[1..][1..] == run[2..] && run[2..][1..] == [];
      assert Legal(cfg, s2, run[2..]) && Exec(cfg, s2, run[2..]) == s3;
      assert Legal(cfg, s1, run[1..]) && Exec(cfg, s1, run[1..]) == s3;
      assert s3.calls == s.calls;
    }
  }

  // ----- the store is determined by what was last run -----

  function LastRun(log: seq<Execution>, key: string): Option<Execution> {
    if log == [] then None
    else if log[|log| - 1].key == key then Some(log[|log| - 1])
    else LastRun(log[..|log| - 1], key)
  }

  /** The entry under `key` is the last saved execution, or that has expired. */
  ghost predicate Faithful(cfg: Config, s: State, key: string) {
    match LastRun(s.log, key)
    case None => key !in s.entries
    case Some(e) =>
      if key in s.entries
      then s.entries[key].value.response == e.response && s.entries[key].value.hash == cfg.hash(e.request)
           && s.entries[key].expiry == e.saved + cfg.ttl
      else s.now >= e.saved + cfg.ttl
  }

  lemma ApplyKeepsFaithful(cfg: Config, s: State, a: Action, key: string)
    requires Enabled(s, a) && key != "" && Faithful(cfg, s, key)
    ensures Faithful(cfg, Apply(cfg, s, a), key)
  {
    if a.Finish? && a.outcome.Ok? {
      var t := Apply(cfg, s, a);
      assert t.log[..|t.log| - 1] == s.log;
    }
  }

  lemma {:induction false} ExecKeepsFaithful(cfg: Config, s: State, run: seq<Action>, key: string)
    requires Legal(cfg, s, run) && key != "" && Faithful(cfg, s, key)
    ensures Faithful(cfg, Exec(cfg, s, run), key)
    decreases |run|
  {
    if run != [] {
      ApplyKeepsFaithful(cfg, s, run[0], key);
      ExecKeepsFaithful(cfg, Apply(cfg, s, run[0]), run[1..], key);
    }
  }

  /** What a request must be answered: run it if nothing was saved under the key
      within the ttl, replay the saved response if the body is the same, and
      otherwise report a conflict. */
  datatype Expected = RunIt | Replay(response: Response) | Clash

  function Expect(cfg: Config, s: State, key: string, request: seq<bv8>): Expected {
    match LastRun(s.log, key)
    case None => RunIt
    case Some(e) =>
      if s.now >= e.saved + cfg.ttl then RunIt
      else if request == e.request then Replay(e.response)
      else Clash
  }

  ghost predicate Injective(hash: seq<bv8> -> string) {
    forall a, b :: hash(a) == hash(b) ==> a == b
  }

  /** In every run, however the calls overlap and whenever sweeps happen, the
      store answers as the log of saved executions demands; a replay or a
      conflict runs nothing and changes nothing. */
  lemma AnswersAsTheLogDemands(cfg: Config, now: int, run: seq<Action>, call: nat, key: string, request: seq<bv8>)
    requires Legal(cfg, Init(now), run) && key != "" && Injective(cfg.hash)
    requires call !in Exec(cfg, Init(now), run).calls
    ensures var s := Exec(cfg, Init(now), run);
      var answer := LookupSpec(s.entries, key, cfg.hash(request), s.now);
      match Expect(cfg, s, key, request)
      case RunIt => answer == Err(NotFound) && call in Apply(cfg, s, Begin(call, key, request)).calls
      case Replay(resp) => answer.Ok? && answer.value.response == resp
        && Apply(cfg, s, Begin(call, key, request)) == s
      case Clash => answer == Err(Conflict) && Apply(cfg, s, Begin(call, key, request)) == s
  {
    ExecKeepsFaithful(cfg, Init(now), run, key);
  }

  // ----- spacing, when calls on one key do not overlap -----

  /** No call on the key is running its request. */
  ghost predicate Idle(s: State, key: string) {
    forall c :: c in s.calls ==> s.calls[c].key != key
  }

  /** Only calls on `key` itself matter; calls on other keys may overlap. */
  ghost predicate AloneOn(s: State, a: Action, key: string) {
    a.Begin? && a.key == key ==> Idle(s, key)
  }

  ghost predicate AloneRun(cfg: Config, s: State, run: seq<Action>, key: string)
    requires Legal(cfg, s, run)
    decreases |run|
  {
    run == [] || (AloneOn(s, run[0], key) && AloneRun(cfg, Apply(cfg, s, run[0]), run[1..], key))
  }

  /** Every execution under the key starts at least ttl after each earlier one
      was saved. */
  ghost predicate Apart(cfg: Config, log: seq<Execution>, key: string) {
    forall i, j :: 0 <= i < j < |log| && log[i].key == key == log[j].key ==>
      log[j].start >= log[i].saved + cfg.ttl
  }

  ghost predicate Spaced(cfg: Config, s: State, key: string) {
    (forall c, d :: c in s.calls && d in s.calls && s.calls[c].key == key == s.calls[d].key ==> c == d) &&
    (forall c, i :: c in s.calls && s.calls[c].key == key && 0 <= i < |s.log| && s.log[i].key == key ==>
      s.calls[c].start >= s.log[i].saved + cfg.ttl) &&
    Apart(cfg, s.log, key)
  }

  ghost predicate Ordered(s: State) {
    (forall i :: 0 <= i < |s.log| ==> s.log[i].start <= s.log[i].saved <= s.now) &&
    (forall i, j :: 0 <= i < j < |s.log| ==> s.log[i].saved <= s.log[j].saved) &&
    (forall c :: c in s.calls ==> s.calls[c].start <= s.now)
  }

  lemma LastRunIsLast(log: seq<Execution>, key: string, i: nat)
    requires i < |log| && log[i].key == key
    requires forall a, b :: 0 <= a < b < |log| ==> log[a].saved <= log[b].saved
    ensures LastRun(log, key).Some? && log[i].saved <= LastRun(log, key).value.saved
  {
    if log[|log| - 1].key != key {
      LastRunIsLast(log[..|log| - 1], key, i);
    }
  }

  lemma BeginKeepsSpaced(cfg: Config, s: State, a: Action, key: string)
    requires a.Begin? && Enabled(s, a) && AloneOn(s, a, key) && key != ""
    requires Ordered(s) && Faithful(cfg, s, key) && Spaced(cfg, s, key)
    ensures Spaced(cfg, Apply(cfg, s, a), key)
  {
    if a.key == key && LookupSpec(s.entries, key, cfg.hash(a.request), s.now) == Err(NotFound) {
      forall i | 0 <= i < |s.log| && s.log[i].key == key ensures s.now >= s.log[i].saved + cfg.ttl {
        LastRunIsLast(s.log, key, i);
      }
    }
  }

  lemma FinishKeepsSpaced(cfg: Config, s: State, a: Action, key: string)
    requires a.Finish? && Enabled(s, a) && Ordered(s) && Spaced(cfg, s, key)
    ensures Spaced(cfg, Apply(cfg, s, a), key)
  {
    var t := Apply(cfg, s, a);
    assert forall c :: c in t.calls ==> c in s.calls && c != a.call && t.calls[c] == s.calls[c];
  }

  lemma ApplyKeepsOrdered(cfg: Config, s: State, a: Action)
    requires Enabled(s, a) && Ordered(s)
    ensures Ordered(Apply(cfg, s, a))
  {}

  lemma ApplyKeepsSpaced(cfg: Config, s: State, a: Action, key: string)
    requires Enabled(s, a) && AloneOn(s, a, key) && key != ""
    requires Ordered(s) && Faithful(cfg, s, key) && Spaced(cfg, s, key)
    ensures Spaced(cfg, Apply(cfg, s, a), key)
  {
    match a
    case Begin(_, _, _) => BeginKeepsSpaced(cfg, s, a, key);
    case Finish(_, _, _) => FinishKeepsSpaced(cfg, s, a, key);
    case Tick(_) =>
    case Sweeping =>
  }

  lemma {:induction false} ExecKeepsSpaced(cfg: Config, s: State, run: seq<Action>, key: string)
    requires Legal(cfg, s, run) && AloneRun(cfg, s, run, key) && key != ""
    requires Ordered(s) && Faithful(cfg, s, key) && Spaced(cfg, s, key)
    ensures Ordered(Exec(cfg, s, run)) && Spaced(cfg, Exec(cfg, s, run), key)
    decreases |run|
  {
    if run != [] {
      ApplyKeepsFaithful(cfg, s, run[0], key);
      ApplyKeepsOrdered(cfg, s, run[0]);
      ApplyKeepsSpaced(cfg, s, run[0], key);
      ExecKeepsSpaced(cfg, Apply(cfg, s, run[0]), run[1..], key);
    }
  }

  /** In every run whose calls on the key do not overlap, an execution under the
      key starts no sooner than ttl after any earlier one was saved, and so no
      sooner than ttl after it started. The same goes for a call that is still
      running its request, whether or not it will fail. */
  lemma ExecutionsAreTtlApart(cfg: Config, now: int, run: seq<Action>, key: string, i: nat)
    requires Legal(cfg, Init(now), run) && AloneRun(cfg, Init(now), run, key) && key != ""
    requires var log := Exec(cfg, Init(now), run).log; i < |log| && log[i].key == key
    ensures var log := Exec(cfg, Init(now), run).log;
      log[i].start <= log[i].saved &&
      forall j :: i < j < |log| && log[j].key == key ==> log[j].start >= log[i].saved + cfg.ttl
    ensures var s := Exec(cfg, Init(now), run);
      forall c :: c in s.calls && s.calls[c].key == key ==> s.calls[c].start >= s.log[i].saved + cfg.ttl
  {
    ExecKeepsSpaced(cfg, Init(now), run, key);
  }

  // ----- overlap is exactly what breaks it -----

  /** Whatever happens next, short of another overlap on the key. */
  ghost predicate StaysApart(cfg: Config, s: State, key: string) {
    forall run: seq<Action> :: Legal(cfg, s, run) && AloneRun(cfg, s, run, key) ==>
      Apart(cfg, Exec(cfg, s, run).log, key)
  }

  /** Two calls on a key that are both running can both save. */
  lemma BothSave(cfg: Config, s: State, key: string, c: nat, d: nat, resp: Response)
    requires c != d && c in s.calls && d in s.calls && s.calls[c].key == key == s.calls[d].key
    ensures var run := [Finish(c, Ok(resp), s.now), Finish(d, Ok(resp), s.now)];
      Legal(cfg, s, run) && AloneRun(cfg, s, run, key) && Exec(cfg, s, run).log == s.log + [
        Execution(key, s.calls[c].request, resp, s.calls[c].start, s.now),
        Execution(key, s.calls[d].request, resp, s.calls[d].start, s.now)]
  {
    var run := [Finish(c, Ok(resp), s.now), Finish(d, Ok(resp), s.now)];
    var s1 := Apply(cfg, s, run[0]);
    var s2 := Apply(cfg, s1, run[1]);
    assert run[1..][1..] == [];
    assert Legal(cfg, s1, run[1..]) && AloneRun(cfg, s1, run[1..], key) && Exec(cfg, s1, run[1..]) == s2;
  }

  /** If they save late enough, the second to save started too early. */
  lemma OverlapIsNotApart(cfg: Config, s: State, key: string, c: nat, d: nat)
    requires c != d && c in s.calls && d in s.calls && s.calls[c].key == key == s.calls[d].key
    requires s.calls[d].start <= s.now
    ensures !StaysApart(cfg, s, key)
  {
    var wait := Tick(if cfg.ttl > 0 then 0 else 1 - cfg.ttl);
    var late, resp: Response := Apply(cfg, s, wait), *;
    var both := [Finish(c, Ok(resp), late.now), Finish(d, Ok(resp), late.now)];
    BothSave(cfg, late, key, c, d, resp);
    var run := [wait] + both;
    assert run[1..] == both;
    assert Legal(cfg, s, run) && AloneRun(cfg, s, run, key) && Exec(cfg, s, run) == Exec(cfg, late, both);
    var log := Exec(cfg, s, run).log;
    assert log[|s.log|].key == key == log[|s.log| + 1].key;
    assert log[|s.log| + 1].start < log[|s.log|].saved + cfg.ttl;
  }

  /** Letting a call on `key` in keeps every further run without overlap spaced
      exactly when it is answered from the store or no call on the key is in
      flight. */
  lemma BeginIsSafeIffIdle(cfg: Config, s: State, c: nat, key: string, request: seq<bv8>)
    requires key != "" && c !in s.calls
    requires Ordered(s) && Faithful(cfg, s, key) && Spaced(cfg, s, key)
    ensures StaysApart(cfg, Apply(cfg, s, Begin(c, key, request)), key)
      <==> LookupSpec(s.entries, key, cfg.hash(request), s.now) != Err(NotFound) || Idle(s, key)
  {
    var a := Begin(c, key, request);
    var t := Apply(cfg, s, a);
    if LookupSpec(s.entries, key, cfg.hash(request), s.now) == Err(NotFound) && !Idle(s, key) {
      var d :| d in s.calls && s.calls[d].key == key;
      OverlapIsNotApart(cfg, t, key, d, c);
    } else {
      ApplyKeepsFaithful(cfg, s, a, key);
      ApplyKeepsOrdered(cfg, s, a);
      if Idle(s, key) {
        BeginKeepsSpaced(cfg, s, a, key);
      }
      forall run: seq<Action> | Legal(cfg, t, run) && AloneRun(cfg, t, run, key)
        ensures Apart(cfg, Exec(cfg, t, run).log, key)
      {
        ExecKeepsSpaced(cfg, t, run, key);
      }
    }
  }

  /** From any state in which the key is free to run, two calls that overlap
      both run the request. */
  lemma OverlapRunsTwice(cfg: Config, s: State, key: string, request: seq<bv8>, resp: Response, c: nat, d: nat)
    requires c != d && c !in s.calls && d !in s.calls
    requires LookupSpec(s.entries, key, cfg.hash(request), s.now) == Err(NotFound)
    ensures var run := [Begin(c, key, request), Begin(d, key, request)]
        + [Finish(c, Ok(resp), s.now), Finish(d, Ok(resp), s.now)];
      var one := Execution(key, request, resp, s.now, s.now);
      Legal(cfg, s, run) && Exec(cfg, s, run).log == s.log + [one, one]
  {
    var both := [Finish(c, Ok(resp), s.now), Finish(d, Ok(resp), s.now)];
    var run := [Begin(c, key, request), Begin(d, key, request)] + both;
    var s1 := Apply(cfg, s, run[0]);
    var s2 := Apply(cfg, s1, run[1]);
    BothSave(cfg, s2, key, c, d, resp);
    assert run[1..][1..] == both;
    assert Legal(cfg, s1, run[1..]) && Exec(cfg, s1, run[1..]) == Exec(cfg, s2, both);
  }
}
