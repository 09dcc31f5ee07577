/** The Redis limiter: the same bucket kept in a hash that Redis forgets after
    sixty seconds without a call. */
module LuaBucket {
  import opened Wrappers
  import opened TokenBucket
  import opened SlidingWindow

  const KEEP := 60.0

  datatype Hash = Hash(tokens: real, last: real, expiresAt: real)

  /** Redis drops a key no earlier than its deadline, and any later read misses it. */
  ghost predicate DropsAt(h: Hash, now: real, gone: bool) {
    (gone ==> now >= h.expiresAt) && (now > h.expiresAt ==> gone)
  }

  function KeyFor(name: string): string {
    "ratelimit:" + name + ":bucket"
  }

  /** Clients never share a key. */
  lemma KeysAreDistinct(a: string, b: string)
    ensures KeyFor(a) == KeyFor(b) ==> a == b
  {
    if KeyFor(a) == KeyFor(b) {
      assert KeyFor(a)[10..10 + |a|] == a && KeyFor(b)[10..10 + |b|] == b;
    }
  }

  function Stored(hashes: map<string, Hash>, key: string): Option<Bucket> {
    if key in hashes then Some(Bucket(hashes[key].tokens, hashes[key].last)) else None
  }

  /** A call of a client; `gone` is Redis dropping the client's key before it. */
  datatype LuaCall = LuaCall(name: string, at: real, gone: bool)

  function EvalSpec(c: Config, hashes: map<string, Hash>, call: LuaCall): (map<string, Hash>, bool) {
    var key := KeyFor(call.name);
    var (b, granted) := Take(c, if call.gone then None else Stored(hashes, key), call.at);
    (hashes[key := Hash(b.tokens, b.lastFill, call.at + KEEP)], granted)
  }

  class LuaLimiter {
    const config: Config
    var hashes: map<string, Hash>

    constructor (rate: real, burst: real)
      ensures Positive(config) && hashes == map[]
      ensures config.rate == if rate <= 0.0 then 1.0 else rate
      ensures config.burst == if burst <= 0.0 then config.rate else burst
    {
      var r := if rate <= 0.0 then 1.0 else rate;
      config := Config(r, if burst <= 0.0 then r else burst);
      hashes := map[];
    }

    /** One atomic run of the script; `gone` is Redis dropping the key first. */
    method Eval(name: string, now: real, gone: bool) returns (granted: bool)
      requires KeyFor(name) in hashes ==> DropsAt(hashes[KeyFor(name)], now, gone)
      modifies this
      ensures (hashes, granted) == EvalSpec(config, old(hashes), LuaCall(name, now, gone))
      ensures KeyFor(name) in hashes && hashes[KeyFor(name)].expiresAt == now + KEEP
      ensures forall other :: other != name ==> Stored(hashes, KeyFor(other)) == Stored(old(hashes), KeyFor(other))
    {
      forall other | other != name ensures KeyFor(other) != KeyFor(name) {
        KeysAreDistinct(other, name);
      }
      var key := KeyFor(name);
      if key !in hashes || gone {
        hashes := hashes[key := Hash(config.burst - 1.0, now, now + KEEP)];
        return true;
      }
      var tokens, last := hashes[key].tokens, hashes[key].last;
      if now - last > 0.0 {
        tokens := Min(config.burst, tokens + Earned(config, last, now));
        last := now;
      }
      assert Bucket(tokens, last) == Refill(config, Stored(old(hashes), key).value, now);
      if tokens < 1.0 {
        hashes := hashes[key := Hash(tokens, last, now + KEEP)];
        return false;
      }
      tokens := tokens - 1.0;
      hashes := hashes[key := Hash(tokens, last, now + KEEP)];
      granted := true;
    }
  }

  // ----- one key over a run; gone[k] says that Redis dropped the key before call k -----

  ghost predicate Drops(times: seq<real>, gone: seq<bool>) {
    |gone| == |times| &&
    forall k :: 1 <= k < |times| ==>
      (gone[k] ==> times[k] >= times[k - 1] + KEEP) && (times[k] > times[k - 1] + KEEP ==> gone[k])
  }

  function LuaAfter(c: Config, times: seq<real>, gone: seq<bool>): Option<Bucket>
    requires |gone| == |times|
  {
    if times == [] then None
    else
      var n := |times| - 1;
      Some(Take(c, if gone[n] then None else LuaAfter(c, times[..n], gone[..n]), times[n]).0)
  }

  function LuaAnswer(c: Config, times: seq<real>, gone: seq<bool>): bool
    requires |gone| == |times| && times != []
  {
    var n := |times| - 1;
    Take(c, if gone[n] then None else LuaAfter(c, times[..n], gone[..n]), times[n]).1
  }

  // ----- any interleaving of clients -----

  function AfterEvals(c: Config, calls: seq<LuaCall>): map<string, Hash> {
    if calls == [] then map[]
    else EvalSpec(c, AfterEvals(c, calls[..|calls| - 1]), calls[|calls| - 1]).0
  }

  /** The calls of one client within an interleaved run. */
  function CallsOf(calls: seq<LuaCall>, name: string): seq<LuaCall> {
    if calls == [] then []
    else
      var rest, last := CallsOf(calls[..|calls| - 1], name), calls[|calls| - 1];
      if last.name == name then rest + [last] else rest
  }

  function Times(calls: seq<LuaCall>): (times: seq<real>)
    ensures |times| == |calls|
  {
    seq(|calls|, k requires 0 <= k < |calls| => calls[k].at)
  }

  function Gone(calls: seq<LuaCall>): (gone: seq<bool>)
    ensures |gone| == |calls|
  {
    seq(|calls|, k requires 0 <= k < |calls| => calls[k].gone)
  }

  lemma AddingACall(c: Config, mine: seq<LuaCall>, call: LuaCall)
    ensures var all := mine + [call];
      var before := if call.gone then None else LuaAfter(c, Times(mine), Gone(mine));
      LuaAfter(c, Times(all), Gone(all)) == Some(Take(c, before, call.at).0) &&
      LuaAnswer(c, Times(all), Gone(all)) == Take(c, before, call.at).1
  {
    hide Take;
    var all, n := mine + [call], |mine|;
    assert Times(all)[..n] == Times(mine) && Gone(all)[..n] == Gone(mine);
  }

  /** Other clients never change a client's bucket or its deadline. */
  lemma {:induction false} ClientProjection(c: Config, calls: seq<LuaCall>, name: string)
    ensures var mine, all := CallsOf(calls, name), AfterEvals(c, calls);
      Stored(all, KeyFor(name)) == LuaAfter(c, Times(mine), Gone(mine)) &&
      (KeyFor(name) in all ==> mine != [] && all[KeyFor(name)].expiresAt == mine[|mine| - 1].at + KEEP)
  {
    hide Take;
    if calls != [] {
      var n := |calls| - 1;
      ClientProjection(c, calls[..n], name);
      if calls[n].name == name {
        AddingACall(c, CallsOf(calls[..n], name), calls[n]);
      } else {
        KeysAreDistinct(calls[n].name, name);
      }
    }
  }

  /** In any interleaving over clients a call is answered as in the run of its own
      client alone. */
  lemma ClientsAreIndependent(c: Config, calls: seq<LuaCall>, call: LuaCall)
    ensures var mine := CallsOf(calls, call.name) + [call];
      EvalSpec(c, AfterEvals(c, calls), call).1 == LuaAnswer(c, Times(mine), Gone(mine))
  {
    hide Take;
    ClientProjection(c, calls, call.name);
    AddingACall(c, CallsOf(calls, call.name), call);
  }

  /** Redis drops keys only as their deadlines allow, in every step of the run. */
  ghost predicate KeepsDeadlines(c: Config, calls: seq<LuaCall>) {
    forall k :: 0 <= k < |calls| ==>
      var before, key := AfterEvals(c, calls[..k]), KeyFor(calls[k].name);
      key in before ==> DropsAt(before[key], calls[k].at, calls[k].gone)
  }

  lemma {:induction false} EveryClientsDrops(c: Config, calls: seq<LuaCall>, name: string)
    requires KeepsDeadlines(c, calls)
    ensures var mine := CallsOf(calls, name); Drops(Times(mine), Gone(mine))
  {
    hide EvalSpec;
    if calls != [] {
      var n := |calls| - 1;
      var before := calls[..n];
      assert forall k :: 0 <= k < n ==> before[..k] == calls[..k];
      EveryClientsDrops(c, before, name);
      if calls[n].name == name {
        ClientProjection(c, before, name);
        LastDrops(c, CallsOf(before, name), calls[n], AfterEvals(c, before));
      }
    }
  }

  lemma LastDrops(c: Config, mine: seq<LuaCall>, call: LuaCall, all: map<string, Hash>)
    requires Drops(Times(mine), Gone(mine)) && Stored(all, KeyFor(call.name)) == LuaAfter(c, Times(mine), Gone(mine))
    requires KeyFor(call.name) in all ==>
      mine != [] && all[KeyFor(call.name)].expiresAt == mine[|mine| - 1].at + KEEP
      && DropsAt(all[KeyFor(call.name)], call.at, call.gone)
    ensures Drops(Times(mine + [call]), Gone(mine + [call]))
  {
    hide Take;
    var times, gone := Times(mine + [call]), Gone(mine + [call]);
    forall k | 1 <= k < |times|
      ensures (gone[k] ==> times[k] >= times[k - 1] + KEEP) && (times[k] > times[k - 1] + KEEP ==> gone[k])
    {
      if k < |mine| {
        assert times[k] == Times(mine)[k] && times[k - 1] == Times(mine)[k - 1] && gone[k] == Gone(mine)[k];
      }
    }
  }

  /** If a minute refills a whole bucket, forgetting it changes nothing: the two
      limiters hold the same bucket after every call and answer alike. */
  lemma {:induction false} ForgettingIsInvisible(c: Config, times: seq<real>, gone: seq<bool>)
    requires KEEP * c.rate >= c.burst >= 1.0 && Forward(times) && Drops(times, gone)
    ensures LuaAfter(c, times, gone) == After(c, times)
    ensures times != [] ==> LuaAnswer(c, times, gone) == Answer(c, times)
  {
    hide Earned;
    if times != [] {
      var n := |times| - 1;
      ForgettingIsInvisible(c, times[..n], gone[..n]);
      if n > 0 && gone[n] {
        AfterFromLevel(c, times[..n]);
        IdleMinuteFills(c, After(c, times[..n]).value, times[n]);
      }
    }
  }

  /** So the Redis limiter answers every call of every interleaving as the
      in-memory limiter does. */
  lemma RedisAnswersAsMemory(c: Config, calls: seq<LuaCall>, call: LuaCall)
    requires KEEP * c.rate >= c.burst >= 1.0 && KeepsDeadlines(c, calls + [call])
    requires Forward(Times(CallsOf(calls, call.name) + [call]))
    ensures EvalSpec(c, AfterEvals(c, calls), call).1
      == AllowSpec(c, AfterAll(c, Plain(calls)), Call(call.name, call.at)).1
  {
    hide Take;
    var mine, all := CallsOf(calls, call.name) + [call], calls + [call];
    assert all[..|calls|] == calls;
    EveryClientsDrops(c, all, call.name);
    ClientsAreIndependent(c, calls, call);
    ForgettingIsInvisible(c, Times(mine), Gone(mine));
    KeysAreIndependent(c, Plain(calls), Call(call.name, call.at));
    PlainTimes(calls, call.name);
    assert Times(mine) == TimesOf(Plain(calls), call.name) + [call.at];
  }

  /** The same calls on the in-memory limiter. */
  function Plain(calls: seq<LuaCall>): (plain: seq<Call>)
    ensures |plain| == |calls|
  {
    seq(|calls|, k requires 0 <= k < |calls| => Call(calls[k].name, calls[k].at))
  }

  lemma {:induction false} PlainTimes(calls: seq<LuaCall>, name: string)
    ensures TimesOf(Plain(calls), name) == Times(CallsOf(calls, name))
  {
    if calls != [] {
      var n := |calls| - 1;
      PlainTimes(calls[..n], name);
      assert Plain(calls)[..n] == Plain(calls[..n]);
      var mine := CallsOf(calls[..n], name);
      assert Times(mine + [calls[n]]) == Times(mine) + [calls[n].at];
    }
  }

  lemma IdleMinuteFills(c: Config, b: Bucket, now: real)
    requires KEEP * c.rate >= c.burst >= 1.0 && b.tokens >= 0.0 && now >= b.lastFill + KEEP
    ensures Refill(c, b, now) == Bucket(c.burst, now)
  {
    EarnedAdds(c, b.lastFill, b.lastFill + KEEP, now);
    assert c.rate > 0.0;
    EarnedGrows(c, b.lastFill + KEEP, now);
    assert b.lastFill + KEEP - b.lastFill == KEEP;
  }

  ghost predicate Agree(c: Config) {
    forall times: seq<real>, gone: seq<bool> ::
      times != [] && Forward(times) && Drops(times, gone) ==>
        LuaAnswer(c, times, gone) == Answer(c, times)
  }

  // ----- and only then -----

  /** A run that both limiters have answered alike so far. */
  datatype Paired = Paired(times: seq<real>, gone: seq<bool>) {
    ghost predicate At(c: Config, t: real, lua: real, mem: real) {
      times != [] && Forward(times) && Drops(times, gone) && times[|times| - 1] == t &&
      LuaAfter(c, times, gone) == Some(Bucket(lua, t)) && After(c, times) == Some(Bucket(mem, t))
    }
  }

  /** Extend the run by one call, which both limiters must answer alike. */
  lemma NextCall(c: Config, p: Paired, t: real, lua: real, mem: real, now: real) returns (q: Paired)
    requires Agree(c) && p.At(c, t, lua, mem) && now >= t
    ensures q.times == p.times + [now] && q.gone == p.gone + [now > t + KEEP]
    ensures Forward(q.times) && Drops(q.times, q.gone)
    ensures var l := Take(c, if now > t + KEEP then None else Some(Bucket(lua, t)), now);
      var m := Take(c, Some(Bucket(mem, t)), now);
      LuaAfter(c, q.times, q.gone) == Some(l.0) && After(c, q.times) == Some(m.0) && l.1 == m.1
  {
    hide Earned;
    q := Paired(p.times + [now], p.gone + [now > t + KEEP]);
    DropsExtend(p.times, p.gone, now);
    LuaOneMore(c, p.times, p.gone, now, now > t + KEEP);
    OneMoreCall(c, p.times, now);
    assert LuaAnswer(c, q.times, q.gone) == Answer(c, q.times);
  }

  lemma DropsExtend(times: seq<real>, gone: seq<bool>, now: real)
    requires times != [] && Forward(times) && Drops(times, gone) && times[|times| - 1] <= now
    ensures Forward(times + [now]) && Drops(times + [now], gone + [now > times[|times| - 1] + KEEP])
  {
    var ts, gs, n := times + [now], gone + [now > times[|times| - 1] + KEEP], |times|;
    forall k | 1 <= k < |ts|
      ensures (gs[k] ==> ts[k] >= ts[k - 1] + KEEP) && (ts[k] > ts[k - 1] + KEEP ==> gs[k])
    {
      if k < n {
        assert gs[k] == gone[k] && ts[k] == times[k] && ts[k - 1] == times[k - 1];
      }
    }
  }

  lemma LuaOneMore(c: Config, times: seq<real>, gone: seq<bool>, t: real, drop: bool)
    requires |gone| == |times|
    ensures LuaAfter(c, times + [t], gone + [drop])
         == Some(Take(c, if drop then None else LuaAfter(c, times, gone), t).0)
    ensures LuaAnswer(c, times + [t], gone + [drop])
         == Take(c, if drop then None else LuaAfter(c, times, gone), t).1
  {
    var n := |times|;
    assert (times + [t])[..n] == times && (gone + [drop])[..n] == gone;
  }

  /** Extend the run by a call that the Redis limiter grants; `e` is what is earned first. */
  lemma NextGrant(c: Config, p: Paired, t: real, lua: real, mem: real, wait: real, e: real) returns (q: Paired)
    requires Positive(c) && Agree(c) && p.At(c, t, lua, mem) && wait >= 0.0 && e == Earned(c, t, t + wait)
    requires lua <= c.burst && mem <= c.burst && c.burst >= 1.0
    requires wait <= KEEP ==> 1.0 <= lua + e <= c.burst
    ensures mem + e >= 1.0
    ensures mem + e <= c.burst ==>
      q.At(c, t + wait, (if wait > KEEP then c.burst else lua + e) - 1.0, mem + e - 1.0)
  {
    hide Earned;
    q := NextCall(c, p, t, lua, mem, t + wait);
    TakeAfterWait(c, lua, t, wait, e);
    TakeAfterWait(c, mem, t, wait, e);
  }

  lemma TakeAfterWait(c: Config, x: real, t: real, wait: real, e: real)
    requires Positive(c) && x <= c.burst && c.burst >= 1.0 && wait >= 0.0 && e == Earned(c, t, t + wait)
    ensures var (b, ok) := Take(c, Some(Bucket(x, t)), t + wait);
      (ok <==> x + e >= 1.0) && (1.0 <= x + e <= c.burst ==> b == Bucket(x + e - 1.0, t + wait))
  {
    hide Earned;
    EarnedGrows(c, t, t + wait);
  }

  /** Spend `j` more tokens at one instant. */
  lemma {:induction false} Spend(c: Config, p: Paired, t: real, lua: real, mem: real, j: nat) returns (q: Paired)
    requires Positive(c) && Agree(c) && p.At(c, t, lua, mem) && lua >= j as real
    requires lua <= c.burst && mem <= c.burst && c.burst >= 1.0
    ensures q.At(c, t, lua - j as real, mem - j as real)
    decreases j
  {
    hide Earned;
    q := p;
    if j > 0 {
      EarnedGrows(c, t, t);
      var r := NextGrant(c, p, t, lua, mem, 0.0, 0.0);
      q := Spend(c, r, t, lua - 1.0, mem - 1.0, j - 1);
    }
  }

  lemma EarnsExactly(c: Config, missing: real, from: real)
    requires Positive(c)
    ensures Earned(c, from, from + missing / c.rate) == missing
  {
    assert from + missing / c.rate - from == missing / c.rate;
  }

  lemma MidwayEarns(c: Config, from: real, target: real)
    requires Positive(c) && KEEP * c.rate < target
    ensures var w := (KEEP + target / c.rate) / 2.0;
      w > KEEP && 0.0 < Earned(c, from, from + w) < target
  {
    var x := target / c.rate;
    assert x * c.rate == target;
    if x <= KEEP {
      if x < KEEP {
        MulOrder(x, KEEP, c.rate);
      }
    } else {
      MulOrder((KEEP + x) / 2.0, x, c.rate);
      assert from + (KEEP + x) / 2.0 - from == (KEEP + x) / 2.0;
    }
  }

  /** Below a full refill per minute the two limiters come apart on some run. */
  lemma AgreementNeedsAFullRefill(c: Config)
    requires Positive(c) && c.burst >= 1.0 && Agree(c)
    ensures KEEP * c.rate >= c.burst
  {
    hide Earned;
    if KEEP * c.rate < c.burst {
      var k := c.burst.Floor;
      var f := c.burst - k as real;
      var s := (1.0 - f) / c.rate;
      var p := Paired([0.0], [false]);
      assert p.At(c, 0.0, c.burst - 1.0, c.burst - 1.0);
      p := Spend(c, p, 0.0, c.burst - 1.0, c.burst - 1.0, k - 1);
      if KEEP * c.rate < 1.0 - f {
        MidwayEarns(c, 0.0, 1.0 - f);
        var w := (KEEP + s) / 2.0;
        p := NextGrant(c, p, 0.0, f, f, w, Earned(c, 0.0, 0.0 + w));
      } else {
        var w := (KEEP + c.burst / c.rate) / 2.0;
        WithinAMinute(c, 1.0 - f);
        MidwayEarns(c, s, c.burst);
        EarnsExactly(c, 1.0 - f, 0.0);
        EarnsExactly(c, 1.0 - f, s + w);
        ForgottenTooEarly(c, p, k, f, s, w, Earned(c, s, s + w));
      }
    }
  }

  /** A drained bucket forgotten before it has earned `m < burst` tokens grants a
      call that the remembered bucket denies. */
  lemma ForgottenTooEarly(c: Config, p: Paired, k: nat, f: real, s: real, w: real, m: real)
    requires Positive(c) && Agree(c) && 1 <= k && 0.0 <= f < 1.0 && c.burst == k as real + f
    requires p.At(c, 0.0, f, f) && 0.0 <= s <= KEEP < w
    requires Earned(c, 0.0, 0.0 + s) == 1.0 - f == Earned(c, s + w, s + w + s)
    requires Earned(c, s, s + w) == m <= c.burst
    ensures m >= c.burst
  {
    hide Earned;
    var q := NextGrant(c, p, 0.0, f, f, s, 1.0 - f);
    q := NextGrant(c, q, s, 0.0, 0.0, w, m);
    q := Spend(c, q, s + w, c.burst - 1.0, m - 1.0, k - 1);
    q := NextGrant(c, q, s + w, f, m - k as real, s, 1.0 - f);
  }

  lemma WithinAMinute(c: Config, missing: real)
    requires Positive(c) && missing >= 0.0 && KEEP * c.rate >= missing
    ensures 0.0 <= missing / c.rate <= KEEP
  {
    var s := missing / c.rate;
    assert s * c.rate == missing;
    if s > KEEP {
      MulOrder(KEEP, s, c.rate);
    } else if s < 0.0 {
      MulOrder(s, 0.0, c.rate);
    }
  }

  /** With `burst < 1` a forgotten key is granted again and a kept one never is. */
  lemma SmallBurstsDisagree(c: Config)
    requires Positive(c) && c.burst < 1.0
    ensures !Agree(c)
  {
    hide Earned;
    var times, gone := [0.0, 61.0], [false, true];
    SmallBurstGrantsOnce(c, times);
    assert LuaAnswer(c, times, gone);
    assert Drops(times, gone);
  }

  /** The Redis limiter answers every call of every run as the in-memory limiter
      does exactly when a minute refills a whole bucket of at least one token. */
  lemma AgreeIffMinuteRefillsBucket(c: Config)
    requires Positive(c)
    ensures Agree(c) <==> KEEP * c.rate >= c.burst >= 1.0
  {
    hide Earned;
    if c.burst < 1.0 {
      SmallBurstsDisagree(c);
    } else if KEEP * c.rate >= c.burst {
      forall times: seq<real>, gone: seq<bool> | times != [] && Forward(times) && Drops(times, gone)
        ensures LuaAnswer(c, times, gone) == Answer(c, times)
      {
        ForgettingIsInvisible(c, times, gone);
      }
    } else if Agree(c) {
      AgreementNeedsAFullRefill(c);
    }
  }
}
