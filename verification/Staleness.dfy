/** The same cache under concurrency: reads split into cache read, store read
    and cache write, interleaved with any writes and with invalidations that
    may fail. */
module Staleness {
  import opened Wrappers
  import opened ExpiringMap
  import opened UserCaching
  import UserStore

  /** Where an unfinished GetByID call stands. */
  datatype Phase = Missed(id: int) | Fetched(id: int, profile: Profile)

  datatype World = World(now: int, inner: map<int, Profile>, cached: Expiring<int, Profile>, calls: map<nat, Phase>)

  datatype Step =
    | Tick(d: nat)
    | CacheRead(call: nat, id: int)
    | InnerRead(call: nat)
    | CacheWrite(call: nat, ok: bool)
    | InnerWrite(id: int, profile: Option<Profile>)
    | Invalidate(id: int, ok: bool)

  predicate Enabled(w: World, step: Step) {
    match step
    case CacheRead(call, _) => call !in w.calls
    case InnerRead(call) => call in w.calls && w.calls[call].Missed?
    case CacheWrite(call, _) => call in w.calls && w.calls[call].Fetched?
    case _ => true
  }

  function Next(ttl: int, w: World, step: Step): World
    requires Enabled(w, step)
  {
    match step
    case Tick(d) => w.(now := w.now + d)
    case CacheRead(call, id) =>
      if Peek(w.cached, id, w.now).Some? then w
      else w.(cached := Read(w.cached, id, w.now), calls := w.calls[call := Missed(id)])
    case InnerRead(call) =>
      var id := w.calls[call].id;
      if id in w.inner then w.(calls := w.calls[call := Fetched(id, w.inner[id])])
      else w.(calls := w.calls - {call})
    case CacheWrite(call, ok) =>
      var Fetched(id, p) := w.calls[call];
      var ended := w.(calls := w.calls - {call});
      if ok && ttl > 0 then ended.(cached := w.cached[id := Entry(p, w.now + ttl)]) else ended
    case InnerWrite(id, p) =>
      if p.Some? then w.(inner := w.inner[id := p.value]) else w.(inner := w.inner - {id})
    case Invalidate(id, ok) =>
      if ok then w.(cached := w.cached - {id}) else w
  }

  ghost predicate Legal(ttl: int, w: World, run: seq<Step>)
    decreases |run|
  {
    run == [] || (Enabled(w, run[0]) && Legal(ttl, Next(ttl, w, run[0]), run[1..]))
  }

  ghost function Exec(ttl: int, w: World, run: seq<Step>): World
    requires Legal(ttl, w, run)
    decreases |run|
  {
    if run == [] then w else Exec(ttl, Next(ttl, w, run[0]), run[1..])
  }

  // ----- the steps are the cache's own -----

  /** The world shows the profiles of the store and of its cache. */
  ghost predicate Shows(c: CacheConfig, st: State, w: World) {
    c.enabled && RoundTrips(c.codec) &&
    (forall id :: id in w.inner <==> UserStore.Lookup(st.store.users, id).Ok?) &&
    (forall id :: id in w.inner ==> w.inner[id] == ProfileOf(UserStore.Lookup(st.store.users, id).value)) &&
    st.cached == map id | id in w.cached :: Entry(c.codec.encode(w.cached[id].value), w.cached[id].expiry)
  }

  /** The steps of a read that nothing interrupts, and what it returns. */
  function ReadAlone(w: World, call: nat, id: int, d: nat): seq<Step> {
    if Peek(w.cached, id, w.now).Some? then [CacheRead(call, id)]
    else if id !in w.inner then [CacheRead(call, id), InnerRead(call)]
    else [CacheRead(call, id), InnerRead(call), Tick(d), CacheWrite(call, true)]
  }

  function Answered(w: World, id: int): Reply {
    match Peek(w.cached, id, w.now)
    case Some(p) => Found(p)
    case None => if id in w.inner then Found(w.inner[id]) else Failed(UserStore.UserNotFound)
  }

  lemma {:induction false} LegalBySteps(ttl: int, run: seq<Step>, ws: seq<World>, k: nat)
    requires |ws| == |run| + 1 && k <= |run|
    requires forall i :: 0 <= i < |run| ==> Enabled(ws[i], run[i]) && ws[i + 1] == Next(ttl, ws[i], run[i])
    ensures Legal(ttl, ws[k], run[k..]) && Exec(ttl, ws[k], run[k..]) == ws[|run|] && run[0..] == run
    decreases |run| - k
  {
    if k < |run| {
      LegalBySteps(ttl, run, ws, k + 1);
      assert run[k..][1..] == run[k + 1..];
    }
  }

  lemma HitIsTheCaches(c: CacheConfig, st: State, w: World, call: nat, id: int, d: nat)
    requires Shows(c, st, w) && call !in w.calls && Peek(w.cached, id, w.now).Some?
    ensures ReadAgrees(c, st, w, call, id, d)
  {
    hide UserStore.Lookup;
    var run := ReadAlone(w, call, id, d);
    LegalBySteps(c.ttl, run, [w, w], 0);
  }

  lemma NobodyIsNotFound(c: CacheConfig, st: State, w: World, call: nat, id: int, d: nat)
    requires Shows(c, st, w) && call !in w.calls && Peek(w.cached, id, w.now).None? && id !in w.inner
    ensures ReadAgrees(c, st, w, call, id, d)
  {
    assert UserStore.Lookup(st.store.users, id) == Err(UserStore.UserNotFound);
    hide UserStore.Lookup;
    var run := ReadAlone(w, call, id, d);
    var w1 := Next(c.ttl, w, run[0]);
    var w2 := Next(c.ttl, w1, run[1]);
    assert w2.calls == w.calls;
    LegalBySteps(c.ttl, run, [w, w1, w2], 0);
  }

  function Refilled(ttl: int, w: World, id: int, d: nat): Expiring<int, Profile>
    requires id in w.inner
  {
    var left := Read(w.cached, id, w.now);
    if ttl > 0 then left[id := Entry(w.inner[id], w.now + d + ttl)] else left
  }

  lemma MissRefills(ttl: int, w: World, call: nat, id: int, d: nat)
    requires call !in w.calls && Peek(w.cached, id, w.now).None? && id in w.inner
    ensures Legal(ttl, w, ReadAlone(w, call, id, d))
    ensures Exec(ttl, w, ReadAlone(w, call, id, d)) == w.(now := w.now + d, cached := Refilled(ttl, w, id, d))
  {
    var run := ReadAlone(w, call, id, d);
    var w1 := Next(ttl, w, run[0]);
    var w2 := Next(ttl, w1, run[1]);
    var w3 := Next(ttl, w2, run[2]);
    var w4 := Next(ttl, w3, run[3]);
    assert w4.calls == w.calls;
    LegalBySteps(ttl, run, [w, w1, w2, w3, w4], 0);
  }

  lemma MissIsTheCaches(c: CacheConfig, st: State, w: World, call: nat, id: int, d: nat)
    requires Shows(c, st, w) && call !in w.calls && Peek(w.cached, id, w.now).None? && id in w.inner
    ensures ReadAgrees(c, st, w, call, id, d)
  {
    hide UserStore.Lookup, Legal, Exec, ReadAlone;
    MissRefills(c.ttl, w, call, id, d);
  }

  ghost predicate ReadAgrees(c: CacheConfig, st: State, w: World, call: nat, id: int, d: nat) {
    var (after, reply) := CachedGet(c, st, id, w.now, w.now + d);
    var run := ReadAlone(w, call, id, d);
    reply == Answered(w, id) && Legal(c.ttl, w, run) &&
    Shows(c, after, Exec(c.ttl, w, run)) && Exec(c.ttl, w, run).calls == w.calls
  }

  /** A read that nothing interrupts does and answers what GetByID does. */
  lemma ReadIsTheCaches(c: CacheConfig, st: State, w: World, call: nat, id: int, d: nat)
    requires Shows(c, st, w) && call !in w.calls
    ensures ReadAgrees(c, st, w, call, id, d)
  {
    hide Shows, ReadAgrees;
    if Peek(w.cached, id, w.now).Some? {
      HitIsTheCaches(c, st, w, call, id, d);
    } else if id !in w.inner {
      NobodyIsNotFound(c, st, w, call, id, d);
    } else {
      MissIsTheCaches(c, st, w, call, id, d);
    }
  }

  /** What the store holds of `id` after a write, if anything. */
  function ProfileAfter(st: State, op: UserStore.Op, id: int): Option<Profile> {
    match UserStore.Lookup(UserStore.Apply(st.store, op).users, id)
    case Ok(u) => Some(ProfileOf(u))
    case Err(_) => None
  }

  /** A write that succeeds and is not interrupted is a write of the one user it
      concerns, followed by that user's invalidation. */
  lemma WriteIsTheCaches(c: CacheConfig, st: State, w: World, op: UserStore.Op)
    requires Shows(c, st, w) && !BareReply(st.store, Write(op)).Failed?
    ensures var id := Touched(st.store, op);
      var run := [InnerWrite(id, ProfileAfter(st, op, id)), Invalidate(id, true)];
      Legal(c.ttl, w, run) && Shows(c, CachedNext(c, st, Write(op), w.now, w.now), Exec(c.ttl, w, run))
  {
    var id := Touched(st.store, op);
    var run := [InnerWrite(id, ProfileAfter(st, op, id)), Invalidate(id, true)];
    var w1 := Next(c.ttl, w, run[0]);
    var w2 := Next(c.ttl, w1, run[1]);
    LegalBySteps(c.ttl, run, [w, w1, w2], 0);
    forall other | other != id
      ensures UserStore.Lookup(UserStore.Apply(st.store, op).users, other) == UserStore.Lookup(st.store.users, other)
    {
      OthersUntouched(st.store, op, other);
    }
    hide UserStore.Lookup, UserStore.Apply, Legal, Exec, Touched, BareReply;
    WriteShows(c, st, w, op, id);
  }

  lemma WriteShows(c: CacheConfig, st: State, w: World, op: UserStore.Op, id: int)
    requires Shows(c, st, w)
    requires forall other :: other != id ==>
      UserStore.Lookup(UserStore.Apply(st.store, op).users, other) == UserStore.Lookup(st.store.users, other)
    ensures var p := ProfileAfter(st, op, id);
      Shows(c, Dropped(c, st.(store := UserStore.Apply(st.store, op)), id),
            w.(inner := if p.Some? then w.inner[id := p.value] else w.inner - {id}, cached := w.cached - {id}))
  {
    hide UserStore.Lookup, UserStore.Apply;
  }

  /** `worlds[n]` is the world before step `n` of a run that starts with an
      empty cache over any store. */
  ghost predicate Reaches(ttl: int, run: seq<Step>, worlds: seq<World>) {
    |worlds| == |run| + 1 && worlds[0].cached == map[] && worlds[0].calls == map[] &&
    forall k :: 0 <= k < |run| ==> Enabled(worlds[k], run[k]) && worlds[k + 1] == Next(ttl, worlds[k], run[k])
  }

  lemma {:induction false} ClockOnlyMovesForward(ttl: int, run: seq<Step>, ws: seq<World>, i: nat, j: nat)
    requires Reaches(ttl, run, ws) && i <= j <= |run|
    ensures ws[i].now <= ws[j].now
    decreases j
  {
    if i < j {
      ClockOnlyMovesForward(ttl, run, ws, i, j - 1);
    }
  }

  /** A call that holds a profile read it from the store, and has held it since. */
  lemma {:induction false} FetchOrigin(ttl: int, run: seq<Step>, ws: seq<World>, n: nat, call: nat) returns (i: nat)
    requires Reaches(ttl, run, ws) && n <= |run| && call in ws[n].calls && ws[n].calls[call].Fetched?
    ensures i < n && run[i] == InnerRead(call)
    ensures var Fetched(id, p) := ws[n].calls[call]; id in ws[i].inner && ws[i].inner[id] == p
    ensures forall k :: i < k <= n ==> call in ws[k].calls && ws[k].calls[call] == ws[n].calls[call]
    decreases n
  {
    if run[n - 1] == InnerRead(call) {
      i := n - 1;
    } else {
      assert ws[n] == Next(ttl, ws[n - 1], run[n - 1]);
      i := FetchOrigin(ttl, run, ws, n - 1, call);
    }
  }

  /** A cache entry was written by a call, ttl before it expires. */
  lemma {:induction false} EntryOrigin(ttl: int, run: seq<Step>, ws: seq<World>, n: nat, id: int)
    returns (j: nat, call: nat)
    requires Reaches(ttl, run, ws) && n <= |run| && id in ws[n].cached
    ensures j < n && run[j] == CacheWrite(call, true) && call in ws[j].calls
    ensures ws[j].calls[call] == Fetched(id, ws[n].cached[id].value)
    ensures ws[n].cached[id].expiry == ws[j].now + ttl
    decreases n
  {
    var last := run[n - 1];
    assert ws[n] == Next(ttl, ws[n - 1], last);
    if id in ws[n - 1].cached && ws[n - 1].cached[id] == ws[n].cached[id] {
      j, call := EntryOrigin(ttl, run, ws, n - 1, id);
    } else {
      j, call := n - 1, last.call;
    }
  }

  /** Whatever the interleaving: a profile served from the cache was the store's
      at step `i`, where some call read it; that same call wrote it to the cache
      at step `j`, less than ttl ago. */
  lemma BoundedStaleness(ttl: int, run: seq<Step>, ws: seq<World>, n: nat, id: int) returns (i: nat, j: nat, call: nat)
    requires Reaches(ttl, run, ws) && n <= |run| && Peek(ws[n].cached, id, ws[n].now).Some?
    ensures i < j < n && run[i] == InnerRead(call) && run[j] == CacheWrite(call, true)
    ensures id in ws[i].inner && Peek(ws[n].cached, id, ws[n].now) == Some(ws[i].inner[id])
    ensures forall k :: i < k <= j ==> call in ws[k].calls
    ensures ws[n].now - ttl < ws[j].now <= ws[n].now && ws[i].now <= ws[j].now
  {
    j, call := EntryOrigin(ttl, run, ws, n, id);
    i := FetchOrigin(ttl, run, ws, j, call);
    ClockOnlyMovesForward(ttl, run, ws, i, j);
    ClockOnlyMovesForward(ttl, run, ws, j, n);
  }

  // ----- freshness after an invalidation -----

  /** The store's profile of `id` is not written. */
  ghost predicate Quiet(run: seq<Step>, id: int) {
    forall k :: 0 <= k < |run| && run[k].InnerWrite? ==> run[k].id != id
  }

  ghost predicate Current(w: World, id: int, p: Profile) {
    id in w.inner && w.inner[id] == p
  }

  /** What the cache serves under `id` is what the store holds. */
  ghost predicate Fresh(w: World, id: int) {
    var served := Peek(w.cached, id, w.now);
    served.Some? ==> Current(w, id, served.value)
  }

  /** No call is about to write back a profile that the store no longer holds. */
  ghost predicate NoneOutdated(w: World, id: int) {
    forall c :: c in w.calls && w.calls[c].Fetched? && w.calls[c].id == id ==> Current(w, id, w.calls[c].profile)
  }

  /** Until the store's profile of `id` is written again, only it is served. */
  ghost predicate StaysFresh(ttl: int, w: World, id: int) {
    forall run: seq<Step> :: Legal(ttl, w, run) && Quiet(run, id) ==> Fresh(Exec(ttl, w, run), id)
  }

  lemma {:induction false} ExecKeepsFresh(ttl: int, w: World, run: seq<Step>, id: int)
    requires Legal(ttl, w, run) && Quiet(run, id) && Fresh(w, id) && (ttl <= 0 || NoneOutdated(w, id))
    ensures Fresh(Exec(ttl, w, run), id)
    decreases |run|
  {
    if run != [] {
      ExecKeepsFresh(ttl, Next(ttl, w, run[0]), run[1..], id);
    }
  }

  /** A world stays fresh exactly when it is fresh and, unless the ttl disables
      the cache, no call holds an outdated profile. */
  lemma StaysFreshIff(ttl: int, w: World, id: int)
    ensures StaysFresh(ttl, w, id) <==> Fresh(w, id) && (ttl <= 0 || NoneOutdated(w, id))
  {
    if Fresh(w, id) && (ttl <= 0 || NoneOutdated(w, id)) {
      forall run: seq<Step> | Legal(ttl, w, run) && Quiet(run, id) ensures Fresh(Exec(ttl, w, run), id) {
        ExecKeepsFresh(ttl, w, run, id);
      }
    } else if !Fresh(w, id) {
      assert Legal(ttl, w, []) && Exec(ttl, w, []) == w;
    } else {
      var c :| c in w.calls && w.calls[c].Fetched? && w.calls[c].id == id && !Current(w, id, w.calls[c].profile);
      var run := [CacheWrite(c, true)];
      var u := Next(ttl, w, run[0]);
      assert Legal(ttl, u, run[1..]) && Exec(ttl, u, run[1..]) == u;
      assert Legal(ttl, w, run) && Exec(ttl, w, run) == u && !Fresh(u, id);
    }
  }

  /** A successful invalidation does its work exactly when the ttl disables the
      cache or no reader of `id` that is still to write back read a profile since
      replaced. */
  lemma InvalidationWorksIff(ttl: int, w: World, id: int)
    ensures StaysFresh(ttl, Next(ttl, w, Invalidate(id, true)), id) <==> ttl <= 0 || NoneOutdated(w, id)
  {
    StaysFreshIff(ttl, Next(ttl, w, Invalidate(id, true)), id);
  }

  /** A run that fails it: the invalidation succeeds before the slow reader
      writes the old profile back. */
  lemma InvalidatedYetStale(ttl: int, a: Profile, b: Profile) returns (run: seq<Step>, ws: seq<World>)
    requires ttl > 0 && a != b
    ensures Reaches(ttl, run, ws) && |run| >= 3
    ensures run[|run| - 3..] == [InnerWrite(1, Some(b)), Invalidate(1, true), CacheWrite(0, true)]
    ensures var end := ws[|run|];
      end.inner == map[1 := b] && Peek(end.cached, 1, end.now) == Some(a)
  {
    run := [CacheRead(0, 1), InnerRead(0), InnerWrite(1, Some(b)), Invalidate(1, true), CacheWrite(0, true)];
    var w0 := World(0, map[1 := a], map[], map[]);
    var w1 := Next(ttl, w0, run[0]);
    var w2 := Next(ttl, w1, run[1]);
    var w3 := Next(ttl, w2, run[2]);
    var w4 := Next(ttl, w3, run[3]);
    ws := [w0, w1, w2, w3, w4, Next(ttl, w4, run[4])];
  }
}
