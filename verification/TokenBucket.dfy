/** The token bucket of internal/ratelimit, over reals: what one call does to
    one bucket, what a sequence of calls on one key answers, and the per-key
    map of the in-memory limiter. */
module TokenBucket {
  import opened Wrappers

  datatype Config = Config(rate: real, burst: real)

  datatype Bucket = Bucket(tokens: real, lastFill: real)

  datatype Call = Call(key: string, at: real)

  ghost predicate Positive(c: Config) {
    c.rate > 0.0 && c.burst > 0.0
  }

  function Min(a: real, b: real): real {
    if a < b then a else b
  }

  /** Tokens earned between two instants. */
  function Earned(c: Config, from: real, to: real): real {
    (to - from) * c.rate
  }

  function Refill(c: Config, b: Bucket, now: real): Bucket {
    if now - b.lastFill > 0.0
    then Bucket(Min(c.burst, b.tokens + Earned(c, b.lastFill, now)), now)
    else b
  }

  /** One call on one key: the bucket afterwards and the answer. */
  function Take(c: Config, b: Option<Bucket>, now: real): (Bucket, bool) {
    match b
    case None => (Bucket(c.burst - 1.0, now), true)
    case Some(prev) =>
      var r := Refill(c, prev, now);
      if r.tokens < 1.0 then (r, false) else (Bucket(r.tokens - 1.0, r.lastFill), true)
  }

  /** The bucket after the calls made at `times`, none before the first call. */
  function After(c: Config, times: seq<real>): Option<Bucket> {
    if times == [] then None
    else Some(Take(c, After(c, times[..|times| - 1]), times[|times| - 1]).0)
  }

  /** The answer to the last call of `times`. */
  function Answer(c: Config, times: seq<real>): bool
    requires times != []
  {
    Take(c, After(c, times[..|times| - 1]), times[|times| - 1]).1
  }

  function Answers(c: Config, times: seq<real>): (g: seq<bool>)
    ensures |g| == |times|
  {
    seq(|times|, k requires 0 <= k < |times| => Answer(c, times[..k + 1]))
  }

  /** The number of grants among the calls `i..n`. */
  function Grants(g: seq<bool>, i: nat, n: nat): (count: nat)
    requires n <= |g|
    ensures i <= n ==> count <= n - i
  {
    if n <= i then 0 else Grants(g, i, n - 1) + (if g[n - 1] then 1 else 0)
  }

  ghost predicate Forward(times: seq<real>) {
    forall i, j :: 0 <= i <= j < |times| ==> times[i] <= times[j]
  }

  // ----- the in-memory limiter -----

  function AllowSpec(c: Config, buckets: map<string, Bucket>, call: Call): (map<string, Bucket>, bool) {
    var (b, ok) := Take(c, if call.key in buckets then Some(buckets[call.key]) else None, call.at);
    (buckets[call.key := b], ok)
  }

  /** A bucket as RetryAfter reads it: refilled, but not written back. */
  function WaitFor(c: Config, b: Bucket, now: real): real
    requires Positive(c)
  {
    var missing := 1.0 - Refill(c, b, now).tokens;
    if missing <= 0.0 then 0.0
    else TruncateToNanos(missing / c.rate) + 0.001
  }

  /** `time.Duration(x * 1e9)`, back in seconds. */
  function TruncateToNanos(x: real): (r: real)
    ensures r <= x < r + 0.000000001 && (r * 1000000000.0).Floor as real == r * 1000000000.0
  {
    (x * 1000000000.0).Floor as real / 1000000000.0
  }

  /** No wait is asked for exactly when a call would be granted now. */
  lemma NoWaitIffGranted(c: Config, b: Bucket, now: real)
    requires Positive(c)
    ensures WaitFor(c, b, now) >= 0.0 && (WaitFor(c, b, now) == 0.0 <==> Take(c, Some(b), now).1)
  {
    hide Earned;
    var missing := 1.0 - Refill(c, b, now).tokens;
    if missing > 0.0 {
      assert missing / c.rate > 0.0;
    }
  }

  class InMemoryLimiter {
    const config: Config
    var buckets: map<string, Bucket>

    constructor (rate: real, burst: real)
      ensures Positive(config) && buckets == map[]
      ensures rate > 0.0 ==> config.rate == rate
      ensures burst > 0.0 ==> config.burst == burst
      ensures rate <= 0.0 ==> config.rate == 1.0
      ensures burst <= 0.0 ==> config.burst == config.rate
    {
      var r := if rate <= 0.0 then 1.0 else rate;
      config := Config(r, if burst <= 0.0 then r else burst);
      buckets := map[];
    }

    method Allow(key: string, now: real) returns (ok: bool)
      modifies this
      ensures buckets == AllowSpec(config, old(buckets), Call(key, now)).0
      ensures ok == AllowSpec(config, old(buckets), Call(key, now)).1
    {
      if key !in buckets {
        buckets := buckets[key := Bucket(config.burst - 1.0, now)];
        return true;
      }
      var b := buckets[key];
      if now - b.lastFill > 0.0 {
        b := Bucket(Min(config.burst, b.tokens + Earned(config, b.lastFill, now)), now);
        buckets := buckets[key := b];
      }
      if b.tokens < 1.0 {
        assert b == Refill(config, old(buckets)[key], now);
        return false;
      }
      buckets := buckets[key := b.(tokens := b.tokens - 1.0)];
      ok := true;
    }

    method RetryAfter(key: string, now: real) returns (wait: real)
      requires Positive(config)
      ensures wait == if key in buckets then WaitFor(config, buckets[key], now) else 0.0
    {
      if key !in buckets {
        return 0.0;
      }
      var b := buckets[key];
      var elapsed := now - b.lastFill;
      var tokens := b.tokens;
      if elapsed > 0.0 {
        tokens := Min(config.burst, b.tokens + Earned(config, b.lastFill, now));
      }
      var missing := 1.0 - tokens;
      if missing <= 0.0 {
        return 0.0;
      }
      wait := TruncateToNanos(missing / config.rate) + 0.001;
    }
  }

  /** All buckets after an interleaved run over any keys. */
  function AfterAll(c: Config, calls: seq<Call>): map<string, Bucket> {
    if calls == [] then map[]
    else AllowSpec(c, AfterAll(c, calls[..|calls| - 1]), calls[|calls| - 1]).0
  }

  /** The call times of one key within an interleaved run. */
  function TimesOf(calls: seq<Call>, key: string): seq<real> {
    if calls == [] then []
    else
      var rest := TimesOf(calls[..|calls| - 1], key);
      var last := calls[|calls| - 1];
      if last.key == key then rest + [last.at] else rest
  }

  /** Other keys never change a key's bucket: the run projects to the key. */
  lemma {:induction false} KeyProjection(c: Config, calls: seq<Call>, key: string)
    ensures var mine := After(c, TimesOf(calls, key));
      (key in AfterAll(c, calls) <==> mine.Some?) &&
      (mine.Some? ==> AfterAll(c, calls)[key] == mine.value)
  {
    hide Earned;
    if calls != [] {
      var n := |calls| - 1;
      KeyProjection(c, calls[..n], key);
      if calls[n].key == key {
        var times := TimesOf(calls, key);
        assert times[..|times| - 1] == TimesOf(calls[..n], key);
      }
    }
  }

  /** The limiter's answer to a call is the single-key answer of that call. */
  lemma KeysAreIndependent(c: Config, calls: seq<Call>, call: Call)
    ensures AllowSpec(c, AfterAll(c, calls), call).1
         == Answer(c, TimesOf(calls, call.key) + [call.at])
  {
    KeyProjection(c, calls, call.key);
    var times := TimesOf(calls, call.key) + [call.at];
    assert times[..|times| - 1] == TimesOf(calls, call.key);
  }
}
