/** The idempotency-key store: replay, conflict and expiry. */
module Idempotency {
  import opened Wrappers
  import opened ExpiringMap

  datatype Response = Response(status: int, body: seq<bv8>, contentType: string)

  datatype Saved = Saved(response: Response, hash: string, storedAt: int)

  datatype Miss = NotFound | Conflict

  type Entries = Expiring<string, Saved>

  function LookupSpec(m: Entries, key: string, hash: string, now: int): Result<Saved, Miss> {
    if key == "" then Err(NotFound)
    else
      match Peek(m, key, now)
      case None => Err(NotFound)
      case Some(e) => if e.hash != hash then Err(Conflict) else Ok(e)
  }

  function AfterLookup(m: Entries, key: string, now: int): Entries {
    if key == "" then m else Read(m, key, now)
  }

  function AfterSave(m: Entries, key: string, e: Saved, expiry: int): Entries {
    if key == "" then m else m[key := Entry(e, expiry)]
  }

  /** What Run answers, and whether it was a replay. */
  datatype Answer = Replayed(entry: Saved) | Executed(entry: Saved) | Conflicted | Broke(err: string)

  class MemoryStore {
    const ttl: int
    const hashRequest: seq<bv8> -> string
    var entries: Entries

    constructor (ttl: int, hashRequest: seq<bv8> -> string)
      ensures this.ttl == ttl && this.hashRequest == hashRequest && entries == map[]
    {
      this.ttl, this.hashRequest, entries := ttl, hashRequest, map[];
    }

    method Lookup(key: string, hash: string, now: int) returns (r: Result<Saved, Miss>)
      modifies this
      ensures r == LookupSpec(old(entries), key, hash, now) && entries == AfterLookup(old(entries), key, now)
      ensures var live := key != "" && key in old(entries) && now < old(entries)[key].expiry;
        if !live then r == Err(NotFound) && entries == if key == "" then old(entries) else old(entries) - {key}
        else entries == old(entries) &&
             r == if old(entries)[key].value.hash == hash then Ok(old(entries)[key].value) else Err(Conflict)
    {
      if key == "" || key !in entries {
        return Err(NotFound);
      }
      var e := entries[key];
      if !(now < e.expiry) {
        entries := entries - {key};
        return Err(NotFound);
      }
      if e.value.hash != hash {
        return Err(Conflict);
      }
      r := Ok(e.value);
    }

    method Save(key: string, hash: string, response: Response, stored: int, now: int)
      modifies this
      ensures entries == AfterSave(old(entries), key, Saved(response, hash, stored), now + ttl)
      ensures entries == if key == "" then old(entries)
        else old(entries)[key := Entry(Saved(response, hash, stored), now + ttl)]
    {
      if key == "" {
        return;
      }
      entries := entries[key := Entry(Saved(response, hash, stored), now + ttl)];
    }

    /** Removes exactly the expired entries and counts them. */
    method Gc(now: int) returns (removed: nat)
      modifies this
      ensures entries == Sweep(old(entries), now) && removed == |old(entries)| - |entries|
      ensures forall k :: k in entries <==> k in old(entries) && now < old(entries)[k].expiry
      ensures forall k :: k in entries ==> entries[k] == old(entries)[k]
    {
      removed := 0;
      var left := entries.Keys;
      while left != {}
        invariant left <= entries.Keys <= old(entries).Keys
        invariant forall k :: k in entries ==> entries[k] == old(entries)[k]
        invariant forall k :: k in old(entries) && k !in left ==>
          (k in entries <==> now < old(entries)[k].expiry)
        invariant removed == |old(entries)| - |entries|
        decreases |left|
      {
        var k :| k in left;
        left := left - {k};
        if !(now < entries[k].expiry) {
          assert |(entries - {k}).Keys| == |entries.Keys - {k}|;
          entries := entries - {k};
          removed := removed + 1;
        }
      }
    }

    /** Lookup at `now`, then, if nothing was stored, `outcome` is what running
        the request gives, saved with the readings `stored <= later`. */
    method Run(key: string, request: seq<bv8>, outcome: Result<Response, string>,
               now: int, stored: int, later: int, returned: int) returns (a: Answer)
      modifies this
      ensures var hash := hashRequest(request);
        match LookupSpec(old(entries), key, hash, now)
        case Ok(e) => a == Replayed(e) && entries == old(entries)
        case Err(Conflict) => a == Conflicted && entries == old(entries)
        case Err(NotFound) =>
          match outcome
          case Err(err) => a == Broke(err) && entries == AfterLookup(old(entries), key, now)
          case Ok(resp) =>
            a == Executed(Saved(resp, hash, returned)) &&
            entries == AfterSave(AfterLookup(old(entries), key, now), key, Saved(resp, hash, stored), later + ttl)
    {
      var hash := hashRequest(request);
      if key != "" {
        var e := Lookup(key, hash, now);
        match e {
          case Ok(saved) => return Replayed(saved);
          case Err(Conflict) => return Conflicted;
          case Err(NotFound) =>
        }
      }
      match outcome
      case Err(err) => a := Broke(err);
      case Ok(resp) =>
        if key != "" {
          Save(key, hash, resp, stored, later);
        }
        a := Executed(Saved(resp, hash, returned));
    }
  }
}
