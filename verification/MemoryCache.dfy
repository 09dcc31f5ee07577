/** The in-process cache, on the heap: stored buffers are private copies. */
module MemoryCache {
  import opened Wrappers
  import opened ExpiringMap

  datatype Slot = Slot(value: array<bv8>, expiresAt: int)

  method Copy(from: array<bv8>) returns (copy: array<bv8>)
    ensures fresh(copy) && copy[..] == from[..]
  {
    copy := new bv8[from.Length];
    for i := 0 to from.Length
      invariant copy[..i] == from[..i]
      invariant fresh(copy)
      modifies copy
    {
      copy[i] := from[i];
    }
  }

  class MemoryCache<K(==)> {
    var entries: map<K, Slot>

    constructor ()
      ensures entries == map[]
    {
      entries := map[];
    }

    /** The buffers that the cache holds on to. */
    ghost function Buffers(): set<array<bv8>>
      reads this
    {
      set k | k in entries :: entries[k].value
    }

    ghost function Contents(): Expiring<K, seq<bv8>>
      reads this, Buffers()
    {
      map k | k in entries :: Entry(entries[k].value[..], entries[k].expiresAt)
    }

    method Get(key: K, now: int) returns (r: Option<array<bv8>>)
      modifies this
      ensures Contents() == Read(old(Contents()), key, now) && Buffers() <= old(Buffers())
      ensures match Peek(old(Contents()), key, now)
        case None => r == None
        case Some(bytes) => r.Some? && r.value[..] == bytes && fresh(r.value)
      // served while it lasts, and removed by the first read after that
      ensures r.Some? <==> key in old(Contents()) && now < old(Contents())[key].expiry
      ensures r.Some? ==> r.value[..] == old(Contents())[key].value && Contents() == old(Contents())
      ensures r.None? ==> Contents() == old(Contents()) - {key}
    {
      if key !in entries {
        return None;
      }
      var e := entries[key];
      if !(now < e.expiresAt) {
        entries := entries - {key};
        return None;
      }
      var out := Copy(e.value);
      r := Some(out);
    }

    method Set(key: K, value: array<bv8>, ttl: int, now: int)
      modifies this
      ensures Contents() == if ttl <= 0 then old(Contents())
                            else old(Contents())[key := Entry(old(value[..]), now + ttl)]
      ensures fresh(Buffers() - old(Buffers()))
    {
      if ttl <= 0 {
        return;
      }
      var stored := Copy(value);
      entries := entries[key := Slot(stored, now + ttl)];
    }

    method Delete(key: K)
      modifies this
      ensures Contents() == old(Contents()) - {key} && Buffers() <= old(Buffers())
    {
      entries := entries - {key};
    }
  }

  /** What a caller may do with its own buffers between calls. */
  datatype Move =
    | Fetch
    | WritePassed(at: nat, byte: bv8)
    | WriteGiven(which: nat, at: nat, byte: bv8)

  function Fetches(moves: seq<Move>): nat {
    if moves == [] then 0
    else Fetches(moves[..|moves| - 1]) + (if moves[|moves| - 1].Fetch? then 1 else 0)
  }

  /** Whatever a caller writes to the buffer it passed in or to any buffer it was
      given, in any order, never shows in the cache: every fetch returns the
      bytes that were set. */
  method CallersNeverReachIn<K(==)>(c: MemoryCache<K>, key: K, buf: array<bv8>, ttl: int, now: int, moves: seq<Move>)
    returns (fetched: seq<seq<bv8>>)
    requires ttl > 0 && buf !in c.Buffers()
    modifies c, buf
    ensures c.Contents() == old(c.Contents())[key := Entry(old(buf[..]), now + ttl)]
    ensures |fetched| == Fetches(moves) && forall bytes :: bytes in fetched ==> bytes == old(buf[..])
  {
    c.Set(key, buf, ttl, now);
    ghost var bytes, stored := old(buf[..]), c.Contents();
    var given: seq<array<bv8>> := [];
    fetched := [];
    for n := 0 to |moves|
      invariant c.Contents() == stored && buf !in c.Buffers()
      invariant forall b :: b in given ==> fresh(b) && b !in c.Buffers()
      invariant |fetched| == Fetches(moves[..n]) && forall f :: f in fetched ==> f == bytes
    {
      assert moves[..n + 1][..n] == moves[..n];
      match moves[n]
      case Fetch =>
        var r := c.Get(key, now);
        given, fetched := given + [r.value], fetched + [r.value[..]];
      case WritePassed(i, x) =>
        if i < buf.Length {
          buf[i] := x;
        }
      case WriteGiven(k, i, x) =>
        if k < |given| && i < given[k].Length {
          assert given[k] in given;
          given[k][i] := x;
        }
    }
    assert moves[..|moves|] == moves;
  }
}
