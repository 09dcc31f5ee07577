/** The read-through user cache over the user store, run sequentially. */
module UserCaching {
  import opened Wrappers
  import opened ExpiringMap
  import opened MemoryCache
  import opened UserStore

  /** The fields that the cache keeps of a user. */
  datatype Profile = Profile(id: int, name: string, email: string)

  /** The JSON codec, left abstract. */
  datatype Codec = Codec(encode: Profile -> seq<bv8>, decode: seq<bv8> -> Option<Profile>)

  ghost predicate RoundTrips(codec: Codec) {
    forall p :: codec.decode(codec.encode(p)) == Some(p)
  }

  datatype CacheConfig = CacheConfig(codec: Codec, ttl: int, enabled: bool)

  datatype State = State(store: Store, cached: Expiring<int, seq<bv8>>)

  function ProfileOf(u: User): (p: Profile)
    ensures p.id == u.id && p.name == u.name && p.email == u.email
  {
    Profile(u.id, u.name, u.email)
  }

  datatype Reply = Found(profile: Profile) | Done | Failed(error: UserStore.Error)

  function ReplyOf(r: Result<User, UserStore.Error>): Reply {
    match r
    case Ok(u) => Found(ProfileOf(u))
    case Err(e) => Failed(e)
  }

  datatype Request = ReadUser(id: int) | ReadByEmail(email: string) | Write(op: Op)

  // ----- the bare store -----

  function BareReply(s: Store, r: Request): Reply {
    match r
    case ReadUser(id) => ReplyOf(Lookup(s.users, id))
    case ReadByEmail(email) =>
      var i := ByEmail(s.users, email);
      if i < |s.users| then Found(ProfileOf(s.users[i])) else Failed(UserNotFound)
    case Write(op) =>
      match op
      case Create(name, email, _) =>
        if CanCreate(s.users, email) then Found(Profile(s.nextID, name, email)) else Failed(EmailAlreadyExists)
      case Update(id, name, email) =>
        (match Updated(s.users, id, name, email)
         case Ok(after) => ReplyOf(Lookup(after, id))
         case Err(e) => Failed(e))
      case UpdatePassword(id, hash) =>
        (match Rehashed(s.users, id, hash) case Ok(_) => Done case Err(e) => Failed(e))
      case Delete(id) =>
        (match Deleted(s.users, id) case Ok(_) => Done case Err(e) => Failed(e))
  }

  function BareNext(s: Store, r: Request): Store {
    if r.Write? then Apply(s, r.op) else s
  }

  // ----- the wrapper -----

  /** What the cache answers by itself, if anything. */
  function Hit(c: CacheConfig, s: State, id: int, now: int): Option<Profile> {
    if !c.enabled then None
    else
      match Peek(s.cached, id, now)
      case None => None
      case Some(bytes) => c.codec.decode(bytes)
  }

  /** The state once the cache has been asked for `id`. */
  function Looked(c: CacheConfig, s: State, id: int, now: int): (t: State)
    ensures t.store == s.store
  {
    if c.enabled then s.(cached := Read(s.cached, id, now)) else s
  }

  /** The state once a profile has been written back. */
  function WrittenBack(c: CacheConfig, s: State, id: int, p: Profile, later: int): (t: State)
    ensures t.store == s.store
  {
    if c.enabled && c.ttl > 0 then s.(cached := s.cached[id := Entry(c.codec.encode(p), later + c.ttl)]) else s
  }

  /** GetByID: the cache at `now`, else the store, written back at `later`. */
  function CachedGet(c: CacheConfig, s: State, id: int, now: int, later: int): (State, Reply) {
    var looked := Looked(c, s, id, now);
    match Hit(c, s, id, now)
    case Some(p) => (looked, Found(p))
    case None =>
      match Lookup(s.store.users, id)
      case Err(e) => (looked, Failed(e))
      case Ok(u) => (WrittenBack(c, looked, id, ProfileOf(u), later), Found(ProfileOf(u)))
  }

  /** The id whose entry a successful write drops. */
  function Touched(s: Store, op: Op): int {
    if op.Create? then s.nextID else op.id
  }

  /** The state once the entry of `id` has been deleted. */
  function Dropped(c: CacheConfig, s: State, id: int): (t: State)
    ensures t.store == s.store
  {
    if c.enabled then s.(cached := s.cached - {id}) else s
  }

  function CachedNext(c: CacheConfig, s: State, r: Request, now: int, later: int): State {
    match r
    case ReadUser(id) => CachedGet(c, s, id, now, later).0
    case ReadByEmail(_) => s
    case Write(op) =>
      if BareReply(s.store, r).Failed? then s
      else Dropped(c, s.(store := Apply(s.store, op)), Touched(s.store, op))
  }

  function CachedReply(c: CacheConfig, s: State, r: Request, now: int, later: int): Reply {
    match r
    case ReadUser(id) => CachedGet(c, s, id, now, later).1
    case _ => BareReply(s.store, r)
  }

  class CachedUserStore {
    const inner: MemoryUserStore
    const cache: MemoryCache?<int>
    const ttl: int
    const codec: Codec

    constructor (inner: MemoryUserStore, cache: MemoryCache?<int>, ttl: int, codec: Codec)
      ensures this.inner == inner && this.cache == cache && this.ttl == ttl && this.codec == codec
    {
      this.inner, this.cache, this.ttl, this.codec := inner, cache, ttl, codec;
    }

    function Config(): CacheConfig {
      CacheConfig(codec, ttl, cache != null)
    }

    ghost function Now(): State
      reads inner, cache, if cache == null then {} else cache.Buffers()
    {
      State(Store(inner.users, inner.nextID), if cache == null then map[] else cache.Contents())
    }

    method GetByID(id: int, now: int, later: int) returns (r: Result<User, UserStore.Error>)
      modifies cache
      ensures Now() == CachedGet(Config(), old(Now()), id, now, later).0
      ensures ReplyOf(r) == CachedGet(Config(), old(Now()), id, now, later).1
      // a hit has no password hash, anything else is the store's own answer
      ensures match Hit(Config(), old(Now()), id, now)
        case Some(p) => r == Ok(User(p.id, p.name, p.email, ""))
        case None => r == Lookup(inner.users, id)
      // over a coherent cache either way it is the store's user
      ensures RoundTrips(codec) && Coherent(Config(), old(Now())) ==>
        match r
        case Ok(u) => Lookup(inner.users, id).Ok? &&
          u.(passwordHash := "") == Lookup(inner.users, id).value.(passwordHash := "")
        case Err(e) => Lookup(inner.users, id) == Err(e)
    {
      hide Hit, Looked, WrittenBack, Lookup;
      ghost var before := Now();
      var hit := FromCache(id, now);
      if hit.Some? {
        if RoundTrips(codec) && Coherent(Config(), before) {
          HitIsTheUser(Config(), before, id, now);
        }
        return Ok(User(hit.value.id, hit.value.name, hit.value.email, ""));
      }
      ghost var looked := Now();
      r := inner.GetByID(id);
      assert Now() == looked;
      if r.Ok? {
        WriteBack(id, r.value, later);
      }
    }

    method FromCache(id: int, now: int) returns (hit: Option<Profile>)
      modifies cache
      ensures hit == Hit(Config(), old(Now()), id, now) && Now() == Looked(Config(), old(Now()), id, now)
    {
      if cache == null {
        return None;
      }
      var got := cache.Get(id, now);
      hit := if got.Some? then codec.decode(got.value[..]) else None;
    }

    method WriteBack(id: int, user: User, later: int)
      modifies cache
      ensures Now() == WrittenBack(Config(), old(Now()), id, ProfileOf(user), later)
    {
      if cache == null {
        return;
      }
      var data := codec.encode(ProfileOf(user));
      var buf := new bv8[|data|](i requires 0 <= i < |data| => data[i]);
      assert buf[..] == data;
      cache.Set(id, buf, ttl, later);
    }

    method GetByEmail(email: string) returns (r: Result<User, UserStore.Error>)
      ensures ReplyOf(r) == BareReply(Now().store, ReadByEmail(email))
      ensures match r
        case Ok(u) => u in inner.users && u.email == email
        case Err(e) => e == UserNotFound && forall u :: u in inner.users ==> u.email != email
    {
      r := inner.GetByEmail(email);
    }

    method Create(name: string, email: string, password: string) returns (r: Result<User, UserStore.Error>)
      modifies inner, cache
      ensures var w := Write(UserStore.Create(name, email, password));
        Now() == CachedNext(Config(), old(Now()), w, 0, 0) && ReplyOf(r) == BareReply(old(Now()).store, w)
      ensures r.Ok? ==> r.value == User(old(inner.nextID), name, email, password)
    {
      hide Scan, Dropped;
      r := inner.Create(name, email, password);
      CreateIff(old(inner.users), email);
      assert Now() == old(Now()).(store := Apply(old(Now()).store, UserStore.Create(name, email, password)));
      if r.Ok? {
        Invalidate(r.value.id);
      }
    }

    method Update(id: int, name: string, email: string) returns (r: Result<User, UserStore.Error>)
      modifies inner, cache
      ensures var w := Write(UserStore.Update(id, name, email));
        Now() == CachedNext(Config(), old(Now()), w, 0, 0) && ReplyOf(r) == BareReply(old(Now()).store, w)
      ensures r.Ok? ==> r == Lookup(inner.users, id)
    {
      hide Updated, Lookup, Dropped;
      r := inner.Update(id, name, email);
      assert Now() == old(Now()).(store := Apply(old(Now()).store, UserStore.Update(id, name, email)));
      if r.Ok? {
        Invalidate(id);
      }
    }

    method UpdatePassword(id: int, hash: string) returns (r: Result<(), UserStore.Error>)
      modifies inner, cache
      ensures var w := Write(UserStore.UpdatePassword(id, hash));
        Now() == CachedNext(Config(), old(Now()), w, 0, 0)
        && (match r case Ok(_) => Done case Err(e) => Failed(e)) == BareReply(old(Now()).store, w)
    {
      hide Rehashed, Dropped;
      r := inner.UpdatePassword(id, hash);
      assert Now() == old(Now()).(store := Apply(old(Now()).store, UserStore.UpdatePassword(id, hash)));
      if r.Ok? {
        Invalidate(id);
      }
    }

    method Delete(id: int) returns (r: Result<(), UserStore.Error>)
      modifies inner, cache
      ensures var w := Write(UserStore.Delete(id));
        Now() == CachedNext(Config(), old(Now()), w, 0, 0)
        && (match r case Ok(_) => Done case Err(e) => Failed(e)) == BareReply(old(Now()).store, w)
    {
      hide Deleted, Dropped;
      r := inner.Delete(id);
      assert Now() == old(Now()).(store := Apply(old(Now()).store, UserStore.Delete(id)));
      if r.Ok? {
        Invalidate(id);
      }
    }

    method Invalidate(id: int)
      modifies cache
      ensures Now() == Dropped(Config(), old(Now()), id)
    {
      if cache == null {
        return;
      }
      cache.Delete(id);
    }
  }

  lemma CreateIff(users: seq<User>, email: string)
    ensures CanCreate(users, email) <==> forall u :: u in users ==> u.email != email
  {
    if !CanCreate(users, email) {
      assert users[ByEmail(users, email)] in users;
    }
  }

  // ----- the cache agrees with the store -----

  /** Every entry, expired or not, encodes the user that the store holds. */
  ghost predicate Coherent(c: CacheConfig, s: State) {
    forall id :: c.enabled && id in s.cached ==>
      var r := Lookup(s.store.users, id);
      r.Ok? && s.cached[id].value == c.codec.encode(ProfileOf(r.value))
  }

  lemma HitIsTheUser(c: CacheConfig, s: State, id: int, now: int)
    requires RoundTrips(c.codec) && Coherent(c, s) && Hit(c, s, id, now).Some?
    ensures var u := Lookup(s.store.users, id); u.Ok? && Hit(c, s, id, now) == Some(ProfileOf(u.value))
  {}

  // ----- what the cache remembers -----

  /** A user that was read is served from the cache until the ttl has passed, and
      not longer; a user that is not there is never cached. */
  lemma ReadIsRemembered(c: CacheConfig, s: State, id: int, now: int, later: int, t: int)
    requires RoundTrips(c.codec) && c.enabled && Hit(c, s, id, now).None?
    ensures var after := CachedGet(c, s, id, now, later).0;
      match Lookup(s.store.users, id)
      case Ok(u) => Hit(c, after, id, t) ==
        if c.ttl > 0 then if t < later + c.ttl then Some(ProfileOf(u)) else None
        else Hit(c, Looked(c, s, id, now), id, t)
      case Err(_) => after == Looked(c, s, id, now)
  {}

  /** Reading one user does not disturb what is cached of the others, and an
      expired entry is gone once it was read. */
  lemma OtherHitsSurviveReads(c: CacheConfig, s: State, id: int, now: int, later: int, other: int, t: int)
    requires other != id
    ensures Hit(c, CachedGet(c, s, id, now, later).0, other, t) == Hit(c, s, other, t)
    ensures c.enabled ==> (id in Looked(c, s, id, now).cached <==> id in s.cached && now < s.cached[id].expiry)
    ensures !c.enabled ==> CachedGet(c, s, id, now, later).0 == s
  {}

  /** A write that succeeds makes the cache forget the user it changed, and nobody
      else; one that fails changes nothing. */
  lemma WritesForgetOne(c: CacheConfig, s: State, op: Op, now: int, later: int, other: int, t: int)
    ensures var after := CachedNext(c, s, Write(op), now, later);
      var id := if op.Create? then s.store.nextID else op.id;
      if BareReply(s.store, Write(op)).Failed? then after == s
      else Hit(c, after, id, t) == None && (other != id ==> Hit(c, after, other, t) == Hit(c, s, other, t))
  {}

  lemma FoundAgain(users: seq<User>, after: seq<User>, id: int, i: nat)
    requires Lookup(users, id).Ok? && i < |after| && after[i] == users[ById(users, id)]
    requires forall k :: 0 <= k < i ==> after[k].id != id
    ensures Lookup(after, id) == Lookup(users, id)
  {
    FoundFirst(after, id, i);
  }

  lemma OthersSurviveDelete(users: seq<User>, gone: int, id: int)
    requires Lookup(users, id).Ok? && id != gone && Deleted(users, gone).Ok?
    ensures Lookup(Deleted(users, gone).value, id) == Lookup(users, id)
  {
    var i, j := ById(users, id), ById(users, gone);
    var after := Deleted(users, gone).value;
    assert forall k :: 0 <= k < |after| ==> after[k] == users[if k < j then k else k + 1];
    FoundAgain(users, after, id, if j < i then i - 1 else i);
  }

  lemma NobodyElseAppears(s: Store, op: Op, id: int)
    requires Lookup(s.users, id).Err? && id != Touched(s, op)
    ensures Lookup(Apply(s, op).users, id) == Err(UserNotFound)
  {
    hide Updated, Deleted, Rehashed, CanCreate;
    LookupFinds(s.users, id);
    LookupFinds(Apply(s, op).users, id);
    forall u | u in Apply(s, op).users && u !in s.users ensures u.id != id {
      NewIdIsTouched(s, op, u);
    }
  }

  lemma NewIdIsTouched(s: Store, op: Op, u: User)
    requires u in Apply(s, op).users && u !in s.users
    ensures u.id == Touched(s, op)
  {
    var after := Apply(s, op).users;
    var k :| 0 <= k < |after| && after[k] == u;
    assert k < |s.users| ==> s.users[k] in s.users;
    assert !op.Delete?;
  }

  /** A successful write changes nobody's profile but the one it drops from the cache. */
  lemma OthersUntouched(s: Store, op: Op, id: int)
    requires id != Touched(s, op)
    ensures Lookup(Apply(s, op).users, id) == Lookup(s.users, id)
  {
    if Lookup(s.users, id).Err? {
      NobodyElseAppears(s, op, id);
      return;
    }
    var i, after := ById(s.users, id), Apply(s, op).users;
    match op
    case Create(_, _, _) => FoundAgain(s.users, after, id, i);
    case Update(_, _, _) => FoundAgain(s.users, after, id, i);
    case UpdatePassword(_, _) => FoundAgain(s.users, after, id, i);
    case Delete(gone) =>
      if Deleted(s.users, gone).Ok? {
        OthersSurviveDelete(s.users, gone, id);
      }
  }

  lemma NextKeepsCoherent(c: CacheConfig, s: State, r: Request, now: int, later: int)
    requires RoundTrips(c.codec) && Coherent(c, s)
    ensures Coherent(c, CachedNext(c, s, r, now, later))
  {
    if r.Write? && !BareReply(s.store, r).Failed? && c.enabled {
      var t := CachedNext(c, s, r, now, later);
      forall id | id in t.cached
        ensures Lookup(t.store.users, id) == Lookup(s.store.users, id)
      {
        OthersUntouched(s.store, r.op, id);
      }
    }
  }

  lemma ReplyAgrees(c: CacheConfig, s: State, r: Request, now: int, later: int)
    requires RoundTrips(c.codec) && Coherent(c, s)
    ensures CachedReply(c, s, r, now, later) == BareReply(s.store, r)
    ensures CachedNext(c, s, r, now, later).store == BareNext(s.store, r)
  {}

  datatype Timed = Timed(request: Request, now: int, later: int)

  function BareRun(s: Store, rs: seq<Timed>): seq<Reply>
    decreases |rs|
  {
    if rs == [] then []
    else [BareReply(s, rs[0].request)] + BareRun(BareNext(s, rs[0].request), rs[1..])
  }

  function CachedRun(c: CacheConfig, s: State, rs: seq<Timed>): seq<Reply>
    decreases |rs|
  {
    if rs == [] then []
    else [CachedReply(c, s, rs[0].request, rs[0].now, rs[0].later)]
         + CachedRun(c, CachedNext(c, s, rs[0].request, rs[0].now, rs[0].later), rs[1..])
  }

  /** Any sequence of requests, at any times, is answered by the cached store
      exactly as by the bare store, on id, name and email. */
  lemma {:induction false} CacheIsTransparent(c: CacheConfig, s: State, rs: seq<Timed>)
    requires RoundTrips(c.codec) && Coherent(c, s)
    ensures CachedRun(c, s, rs) == BareRun(s.store, rs)
    decreases |rs|
  {
    if rs != [] {
      var r := rs[0];
      ReplyAgrees(c, s, r.request, r.now, r.later);
      NextKeepsCoherent(c, s, r.request, r.now, r.later);
      CacheIsTransparent(c, CachedNext(c, s, r.request, r.now, r.later), rs[1..]);
    }
  }

  /** From an empty cache over any store. */
  lemma FreshCacheIsTransparent(c: CacheConfig, store: Store, rs: seq<Timed>)
    requires RoundTrips(c.codec)
    ensures CachedRun(c, State(store, map[]), rs) == BareRun(store, rs)
  {
    CacheIsTransparent(c, State(store, map[]), rs);
  }
}
