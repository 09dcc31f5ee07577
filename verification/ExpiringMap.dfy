/** A map whose entries expire and are removed lazily, as the memory cache and
    the idempotency store keep it, against one that forgets nothing. */
module ExpiringMap {
  import opened Wrappers

  datatype Entry<+V> = Entry(value: V, expiry: int)

  type Expiring<K, V> = map<K, Entry<V>>

  function Peek<K, V>(m: Expiring<K, V>, k: K, now: int): Option<V> {
    if k in m && now < m[k].expiry then Some(m[k].value) else None
  }

  /** A read removes the entry it finds expired. */
  function Read<K, V>(m: Expiring<K, V>, k: K, now: int): Expiring<K, V> {
    if k in m && !(now < m[k].expiry) then m - {k} else m
  }

  /** A sweep removes everything that has expired. */
  function Sweep<K, V>(m: Expiring<K, V>, now: int): Expiring<K, V> {
    map k | k in m && now < m[k].expiry :: m[k]
  }

  datatype MapOp<K, V> =
    | Get(key: K, at: int)
    | Put(key: K, value: V, expiry: int, at: int)
    | Remove(key: K, at: int)
    | Gc(at: int)

  function Lazy<K, V>(m: Expiring<K, V>, op: MapOp<K, V>): Expiring<K, V> {
    match op
    case Get(k, at) => Read(m, k, at)
    case Put(k, v, expiry, _) => m[k := Entry(v, expiry)]
    case Remove(k, _) => m - {k}
    case Gc(at) => Sweep(m, at)
  }

  /** The map that only puts and removes change. */
  function Plain<K, V>(m: Expiring<K, V>, op: MapOp<K, V>): Expiring<K, V> {
    match op
    case Put(k, v, expiry, _) => m[k := Entry(v, expiry)]
    case Remove(k, _) => m - {k}
    case _ => m
  }

  function LazyRun<K, V>(ops: seq<MapOp<K, V>>): Expiring<K, V> {
    if ops == [] then map[] else Lazy(LazyRun(ops[..|ops| - 1]), ops[|ops| - 1])
  }

  function PlainRun<K, V>(ops: seq<MapOp<K, V>>): Expiring<K, V> {
    if ops == [] then map[] else Plain(PlainRun(ops[..|ops| - 1]), ops[|ops| - 1])
  }

  /** The puts and removes of a run. */
  function Writes<K, V>(ops: seq<MapOp<K, V>>): seq<MapOp<K, V>> {
    if ops == [] then []
    else
      var rest, last := Writes(ops[..|ops| - 1]), ops[|ops| - 1];
      if last.Put? || last.Remove? then rest + [last] else rest
  }

  ghost predicate Forward<K(!new), V(!new)>(ops: seq<MapOp<K, V>>) {
    forall i, j :: 0 <= i < j < |ops| ==> ops[i].at <= ops[j].at
  }

  /** `lazy` holds the entries of `plain`, except some that expired by `now`. */
  ghost predicate Matches<K(!new), V(!new)>(lazy: Expiring<K, V>, plain: Expiring<K, V>, now: int) {
    (forall k :: k in lazy ==> k in plain && lazy[k] == plain[k]) &&
    (forall k :: k in plain && k !in lazy ==> plain[k].expiry <= now)
  }

  lemma {:induction false} LazyMatchesPlain<K(!new), V(!new)>(ops: seq<MapOp<K, V>>, now: int)
    requires Forward(ops) && (ops != [] ==> ops[|ops| - 1].at <= now)
    ensures Matches(LazyRun(ops), PlainRun(ops), now)
  {
    if ops != [] {
      var n := |ops| - 1;
      LazyMatchesPlain(ops[..n], ops[n].at);
    }
  }

  lemma {:induction false} PlainSeesOnlyWrites<K(!new), V(!new)>(ops: seq<MapOp<K, V>>)
    ensures PlainRun(ops) == PlainRun(Writes(ops))
  {
    if ops != [] {
      var n := |ops| - 1;
      PlainSeesOnlyWrites(ops[..n]);
      if ops[n].Put? || ops[n].Remove? {
        var w := Writes(ops);
        assert w[..|w| - 1] == Writes(ops[..n]);
      }
    }
  }

  /** Two runs with the same puts and removes, however many sweeps and reads are
      inserted anywhere, answer every later read alike: with the value put last
      if and only if it has not expired. */
  lemma {:induction false} LazyExpiryIsInvisible<K(!new), V(!new)>(
      ops: seq<MapOp<K, V>>, other: seq<MapOp<K, V>>, k: K, now: int)
    requires Forward(ops) && (ops != [] ==> ops[|ops| - 1].at <= now)
    requires Forward(other) && (other != [] ==> other[|other| - 1].at <= now)
    requires Writes(ops) == Writes(other)
    ensures Peek(LazyRun(ops), k, now) == Peek(LazyRun(other), k, now) == Peek(PlainRun(Writes(ops)), k, now)
  {
    LazyMatchesPlain(ops, now);
    LazyMatchesPlain(other, now);
    PlainSeesOnlyWrites(ops);
    PlainSeesOnlyWrites(other);
  }
}
