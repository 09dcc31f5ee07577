/** A declarative reading of the rate limiter: a call is granted exactly when
    no window that ends now would hold more grants than burst plus refill. */
module SlidingWindow {
  import opened Wrappers
  import opened TokenBucket

  /** What is left of window `i..n` when call `n` arrives after the answers `g`:
      burst, plus what the window earned, minus what it granted. */
  ghost function Room(c: Config, times: seq<real>, g: seq<bool>, i: nat, n: nat): real
    requires i <= n < |times| && n <= |g|
  {
    c.burst + Earned(c, times[i], times[n]) - Grants(g, i, n) as real
  }

  /** Every window that ends with the last call of `times` has room for it. */
  ghost predicate WindowLegal(c: Config, times: seq<real>, g: seq<bool>)
    requires times != [] && |g| >= |times| - 1
  {
    var n := |times| - 1;
    forall i {:trigger Room(c, times, g, i, n)} :: 0 <= i <= n ==> Room(c, times, g, i, n) >= 1.0
  }

  /** Tokens in the bucket just before the last call of `times` is answered. */
  ghost function Level(c: Config, times: seq<real>): real
    requires times != []
  {
    var before := After(c, times[..|times| - 1]);
    if before.None? then c.burst else Refill(c, before.value, times[|times| - 1]).tokens
  }

  lemma EarnedAdds(c: Config, a: real, b: real, d: real)
    ensures Earned(c, a, b) + Earned(c, b, d) == Earned(c, a, d)
  {}

  lemma EarnedGrows(c: Config, a: real, b: real)
    requires Positive(c) && a <= b
    ensures Earned(c, a, b) >= 0.0 && Earned(c, a, a) == 0.0
  {}

  lemma GrantsSplit(g: seq<bool>, i: nat, m: nat, n: nat)
    requires i <= m <= n <= |g|
    ensures Grants(g, i, n) == Grants(g, i, m) + Grants(g, m, n)
  {}

  /** After a call the bucket holds the level minus what the call took. */
  lemma {:induction false} AfterFromLevel(c: Config, times: seq<real>)
    requires c.burst >= 1.0 && times != [] && Positive(c) && Forward(times)
    ensures After(c, times).Some?
    ensures After(c, times).value.lastFill == times[|times| - 1]
    ensures After(c, times).value.tokens
         == Level(c, times) - (if Answer(c, times) then 1.0 else 0.0)
    ensures Answer(c, times) <==> Level(c, times) >= 1.0
    ensures 0.0 <= After(c, times).value.tokens
    ensures Level(c, times) <= c.burst
  {
    hide Earned;
    var n := |times| - 1;
    if n > 0 {
      assert times[..n][|times[..n]| - 1] == times[n - 1];
      AfterFromLevel(c, times[..n]);
      EarnedGrows(c, times[n - 1], times[n]);
    }
  }

  /** How the level moves from one call to the next. */
  lemma LevelStep(c: Config, times: seq<real>)
    requires c.burst >= 1.0 && |times| > 1 && Positive(c) && Forward(times)
    ensures var prev := times[..|times| - 1];
      Level(c, times) == Min(c.burst, Level(c, prev) - (if Answer(c, prev) then 1.0 else 0.0)
                                      + Earned(c, prev[|prev| - 1], times[|times| - 1]))
  {
    hide Earned;
    var n := |times| - 1;
    AfterFromLevel(c, times[..n]);
    EarnedGrows(c, times[n - 1], times[n]);
  }

  /** How the room of a window moves from one call to the next. */
  lemma RoomStep(c: Config, times: seq<real>, g: seq<bool>, i: nat)
    requires |times| > 1 && |g| >= |times| - 1 && i < |times| - 1
    ensures var n := |times| - 1;
      Room(c, times, g, i, n) == Room(c, times[..n], g, i, n - 1)
        - (if g[n - 1] then 1.0 else 0.0) + Earned(c, times[n - 1], times[n])
  {
    hide Earned;
    var n := |times| - 1;
    EarnedAdds(c, times[i], times[n - 1], times[n]);
  }

  /** `g` starts with the limiter's own answers before the last call of `times`. */
  ghost predicate Recorded(c: Config, times: seq<real>, g: seq<bool>) {
    times != [] && |g| >= |times| - 1 &&
    forall k :: 0 <= k < |times| - 1 ==> g[k] == Answer(c, times[..k + 1])
  }

  lemma RecordedPrefix(c: Config, times: seq<real>, g: seq<bool>)
    requires |times| > 1 && Recorded(c, times, g)
    ensures Recorded(c, times[..|times| - 1], g)
    ensures g[|times| - 2] == Answer(c, times[..|times| - 1])
  {
    var prev := times[..|times| - 1];
    forall k | 0 <= k < |prev| - 1 ensures g[k] == Answer(c, prev[..k + 1]) {
      assert prev[..k + 1] == times[..k + 1];
    }
  }

  lemma AnswersAreRecorded(c: Config, times: seq<real>, k: nat)
    requires k < |times|
    ensures Recorded(c, times[..k + 1], Answers(c, times))
  {
    var upto := times[..k + 1];
    forall i | 0 <= i < k ensures Answers(c, times)[i] == Answer(c, upto[..i + 1]) {
      assert upto[..i + 1] == times[..i + 1];
    }
  }

  /** No window has less room than the bucket has tokens. */
  lemma {:induction false} LevelAtMostRoom(c: Config, times: seq<real>, g: seq<bool>, i: nat)
    requires c.burst >= 1.0 && Positive(c) && Forward(times) && Recorded(c, times, g) && i < |times|
    ensures Level(c, times) <= Room(c, times, g, i, |times| - 1)
    decreases |times|
  {
    hide Earned;
    AfterFromLevel(c, times);
    EarnedGrows(c, times[i], times[i]);
    if i < |times| - 1 {
      RecordedPrefix(c, times, g);
      LevelAtMostRoom(c, times[..|times| - 1], g, i);
      LevelStep(c, times);
      RoomStep(c, times, g, i);
    }
  }

  /** Some window has no more room than the bucket has tokens. */
  lemma {:induction false} LevelIsSomeRoom(c: Config, times: seq<real>, g: seq<bool>) returns (w: nat)
    requires c.burst >= 1.0 && Positive(c) && Forward(times) && Recorded(c, times, g)
    ensures w < |times| && Level(c, times) == Room(c, times, g, w, |times| - 1)
    decreases |times|
  {
    hide Earned;
    w := |times| - 1;
    EarnedGrows(c, times[w], times[w]);
    if |times| > 1 {
      LevelStep(c, times);
      if Level(c, times) < c.burst {
        RecordedPrefix(c, times, g);
        w := LevelIsSomeRoom(c, times[..|times| - 1], g);
        RoomStep(c, times, g, w);
      }
    }
  }

  /** Forward clock: granted if and only if every window has room. */
  lemma GrantedIffEveryWindowHasRoom(c: Config, times: seq<real>, g: seq<bool>)
    requires c.burst >= 1.0 && Positive(c) && Forward(times) && Recorded(c, times, g)
    ensures Answer(c, times) <==> WindowLegal(c, times, g)
  {
    hide Earned;
    AfterFromLevel(c, times);
    var w := LevelIsSomeRoom(c, times, g);
    var n := |times| - 1;
    forall i | 0 <= i <= n ensures Level(c, times) <= Room(c, times, g, i, n) {
      LevelAtMostRoom(c, times, g, i);
    }
  }

  // ----- any clock -----

  function Max(a: real, b: real): real {
    if a < b then b else a
  }

  /** The running maximum of the observed times. */
  function Ratchet(times: seq<real>): (r: seq<real>)
    ensures |r| == |times|
  {
    if times == [] then []
    else
      var prev := Ratchet(times[..|times| - 1]);
      var last := times[|times| - 1];
      prev + [if prev == [] then last else Max(prev[|prev| - 1], last)]
  }

  lemma {:induction false} RatchetPrefix(times: seq<real>, k: nat)
    requires k <= |times|
    ensures Ratchet(times)[..k] == Ratchet(times[..k])
  {
    if k < |times| {
      assert times[..|times| - 1][..k] == times[..k];
      RatchetPrefix(times[..|times| - 1], k);
    } else {
      assert times[..k] == times;
    }
  }

  lemma {:induction false} RatchetForward(times: seq<real>)
    ensures Forward(Ratchet(times))
    ensures forall i :: 0 <= i < |times| ==> times[i] <= Ratchet(times)[i]
  {
    if times != [] {
      var n := |times| - 1;
      RatchetForward(times[..n]);
      var prev, r := Ratchet(times[..n]), Ratchet(times);
      assert forall i :: 0 <= i < n ==> r[i] == prev[i] && times[i] == times[..n][i];
      forall i | 0 <= i < n ensures r[i] <= r[n] {
        assert prev[i] <= prev[n - 1] <= r[n];
      }
    }
  }

  lemma {:induction false} BucketSeesRatchet(c: Config, times: seq<real>)
    ensures After(c, times) == After(c, Ratchet(times))
    ensures times != [] ==> After(c, times).value.lastFill == Ratchet(times)[|times| - 1]
    ensures times != [] ==> Answer(c, times) == Answer(c, Ratchet(times))
  {
    hide Earned;
    if times != [] {
      var n := |times| - 1;
      BucketSeesRatchet(c, times[..n]);
      assert Ratchet(times)[..n] == Ratchet(times[..n]);
    }
  }

  /** Any clock, even one that jumps back: the window law holds over the
      running maximum of the observed times. */
  lemma {:induction false} GrantedIffWindowsOnAnyClock(c: Config, times: seq<real>, g: seq<bool>)
    requires c.burst >= 1.0 && Positive(c) && Recorded(c, times, g)
    ensures Answer(c, times) <==> WindowLegal(c, Ratchet(times), g)
  {
    hide Earned;
    RatchetForward(times);
    BucketSeesRatchet(c, times);
    forall k | 0 <= k < |times| - 1 ensures g[k] == Answer(c, Ratchet(times)[..k + 1]) {
      BucketSeesRatchet(c, times[..k + 1]);
      RatchetPrefix(times, k + 1);
    }
    GrantedIffEveryWindowHasRoom(c, Ratchet(times), g);
  }

  /** With `burst < 1` only the first call is ever granted, on any clock. */
  lemma {:induction false} SmallBurstGrantsOnce(c: Config, times: seq<real>)
    requires Positive(c) && c.burst < 1.0 && times != []
    ensures Answer(c, times) <==> |times| == 1
    ensures After(c, times).value.tokens <= c.burst
  {
    hide Earned;
    if |times| > 1 {
      SmallBurstGrantsOnce(c, times[..|times| - 1]);
    }
  }

  ghost predicate WindowLaw(c: Config) {
    forall times: seq<real>, g: seq<bool> :: Recorded(c, times, g) ==>
      (Answer(c, times) <==> WindowLegal(c, Ratchet(times), g))
  }

  /** The window law holds of a limiter exactly when its burst is at least one. */
  lemma WindowLawIffBurstAtLeastOne(c: Config)
    requires Positive(c)
    ensures WindowLaw(c) <==> c.burst >= 1.0
  {
    if c.burst >= 1.0 {
      forall times: seq<real>, g: seq<bool> | Recorded(c, times, g)
        ensures Answer(c, times) <==> WindowLegal(c, Ratchet(times), g)
      {
        GrantedIffWindowsOnAnyClock(c, times, g);
      }
    } else {
      var once, g := [0.0], [true];
      assert Recorded(c, once, g);
      assert Ratchet(once)[0] == 0.0;
      assert Room(c, Ratchet(once), g, 0, 0) < 1.0;
    }
  }

  /** No window of any run, on any clock, holds more grants than its share. */
  lemma {:induction false} NoWindowOverGrants(c: Config, times: seq<real>, i: nat, j: nat)
    requires Positive(c) && i <= j < |times|
    ensures Grants(Answers(c, times), i, j + 1) as real
      <= Max(c.burst, 1.0) + Earned(c, Ratchet(times)[i], Ratchet(times)[j])
    decreases j
  {
    hide Earned;
    var g := Answers(c, times);
    var m := Ratchet(times);
    RatchetForward(times);
    EarnedGrows(c, m[i], m[j]);
    if !g[j] {
      if i < j {
        NoWindowOverGrants(c, times, i, j - 1);
        EarnedAdds(c, m[i], m[j - 1], m[j]);
        EarnedGrows(c, m[j - 1], m[j]);
      }
    } else if c.burst >= 1.0 {
      var upto := times[..j + 1];
      AnswersAreRecorded(c, times, j);
      GrantedIffWindowsOnAnyClock(c, upto, g);
      RatchetPrefix(times, j + 1);
      assert Room(c, Ratchet(upto), g, i, j) >= 1.0;
    } else {
      SmallBurstGrantsOnce(c, times[..j + 1]);
    }
  }

  // ----- the limiter grants as much as any admissible policy -----

  /** A policy that never over-fills a window that ends with one of its grants. */
  ghost predicate Admissible(c: Config, times: seq<real>, h: seq<bool>)
    requires |h| == |times|
  {
    forall k :: 0 <= k < |times| && h[k] ==> WindowLegal(c, times[..k + 1], h)
  }

  /** No admissible policy has granted more calls at any point of the run. */
  lemma {:induction false} GrantsAreMaximal(c: Config, times: seq<real>, h: seq<bool>, n: nat)
    requires c.burst >= 1.0 && Positive(c) && Forward(times)
    requires |h| == |times| && Admissible(c, times, h) && n <= |times|
    ensures Grants(h, 0, n) <= Grants(Answers(c, times), 0, n)
    decreases n
  {
    hide Earned;
    if n == 0 {
      return;
    }
    var g := Answers(c, times);
    var k := n - 1;
    GrantsAreMaximal(c, times, h, k);
    if h[k] && !g[k] && Grants(h, 0, k) == Grants(g, 0, k) {
      forall i | 0 <= i <= k ensures Grants(h, 0, i) <= Grants(g, 0, i) {
        GrantsAreMaximal(c, times, h, i);
      }
      AnswersAreRecorded(c, times, k);
      GrantedIffEveryWindowHasRoom(c, times[..k + 1], g);
      FullWindowCarriesOver(c, times[..k + 1], g, h);
    }
  }

  /** The same on any clock, over the running maximum of the observed times. */
  lemma GrantsAreMaximalOnAnyClock(c: Config, times: seq<real>, h: seq<bool>, n: nat)
    requires c.burst >= 1.0 && Positive(c) && |h| == |times| && n <= |times|
    requires Admissible(c, Ratchet(times), h)
    ensures Grants(h, 0, n) <= Grants(Answers(c, times), 0, n)
  {
    hide Earned;
    RatchetForward(times);
    GrantsAreMaximal(c, Ratchet(times), h, n);
    forall i | 0 <= i < |times| ensures Answers(c, times)[i] == Answers(c, Ratchet(times))[i] {
      BucketSeesRatchet(c, times[..i + 1]);
      RatchetPrefix(times, i + 1);
    }
    assert Answers(c, times) == Answers(c, Ratchet(times));
  }

  /** A policy that caught up with the limiter fills the same window. */
  lemma FullWindowCarriesOver(c: Config, times: seq<real>, g: seq<bool>, h: seq<bool>)
    requires times != [] && |g| >= |times| - 1 && |h| >= |times| - 1
    requires forall i :: 0 <= i <= |times| - 1 ==> Grants(h, 0, i) <= Grants(g, 0, i)
    requires Grants(h, 0, |times| - 1) == Grants(g, 0, |times| - 1)
    requires !WindowLegal(c, times, g)
    ensures !WindowLegal(c, times, h)
  {
    hide Earned;
    var n := |times| - 1;
    var i :| 0 <= i <= n && Room(c, times, g, i, n) < 1.0;
    GrantsSplit(g, 0, i, n);
    GrantsSplit(h, 0, i, n);
    assert Room(c, times, h, i, n) < 1.0;
  }

  // ----- RetryAfter -----

  /** The returned wait against the refill it predicts. */
  lemma WaitIsExact(c: Config, b: Bucket, now: real, t: real)
    requires c.burst >= 1.0 && Positive(c) && b.tokens < 1.0 && b.lastFill <= now
    ensures t >= now + WaitFor(c, b, now) ==> Refill(c, b, t).tokens >= 1.0
    ensures WaitFor(c, b, now) > 0.0 && t < now + WaitFor(c, b, now) - 0.001 ==> Refill(c, b, t).tokens < 1.0
  {
    hide Earned;
    if now <= t {
      RefillComposes(c, b, now, t);
      WaitFromRefilled(c, Refill(c, b, now), t);
    } else if b.lastFill <= t {
      RefillComposes(c, b, t, now);
      RefillGrows(c, Refill(c, b, t), now);
    }
  }

  lemma RefillGrows(c: Config, b: Bucket, now: real)
    requires Positive(c) && b.tokens <= c.burst
    ensures b.tokens <= Refill(c, b, now).tokens
  {
    hide Earned;
    if b.lastFill <= now {
      EarnedGrows(c, b.lastFill, now);
    }
  }

  lemma WaitFromRefilled(c: Config, b: Bucket, t: real)
    requires c.burst >= 1.0 && Positive(c) && b.lastFill <= t && b.tokens <= c.burst
    ensures t >= b.lastFill + WaitFor(c, b, b.lastFill) ==> Refill(c, b, t).tokens >= 1.0
    ensures b.tokens < 1.0 && t < b.lastFill + WaitFor(c, b, b.lastFill) - 0.001 ==> Refill(c, b, t).tokens < 1.0
  {
    hide Earned;
    if b.tokens < 1.0 {
      var x := (1.0 - b.tokens) / c.rate;
      assert WaitFor(c, b, b.lastFill) == TruncateToNanos(x) + 0.001;
      EarnedReaches(c, 1.0 - b.tokens, b.lastFill, t);
    } else {
      RefillGrows(c, b, t);
    }
  }

  /** A span earns `missing` tokens if and only if it lasts `missing / rate`. */
  lemma EarnedReaches(c: Config, missing: real, from: real, to: real)
    requires Positive(c) && missing > 0.0
    ensures missing / c.rate > 0.0
    ensures to - from >= missing / c.rate <==> Earned(c, from, to) >= missing
  {
    var x := missing / c.rate;
    assert x * c.rate == missing;
    if to - from < x {
      MulOrder(to - from, x, c.rate);
    } else if to - from > x {
      MulOrder(x, to - from, c.rate);
    }
  }

  lemma MulOrder(x: real, y: real, r: real)
    requires x < y && r > 0.0
    ensures x * r < y * r
  {}

  /** Every call of `later`, made after those of `times`, is denied. */
  ghost predicate AllDenied(c: Config, times: seq<real>, later: seq<real>) {
    later == [] || (AllDenied(c, times, later[..|later| - 1]) && !Answer(c, times + later))
  }

  lemma OneMoreCall(c: Config, times: seq<real>, t: real)
    ensures After(c, times + [t]) == Some(Take(c, After(c, times), t).0)
    ensures Answer(c, times + [t]) == Take(c, After(c, times), t).1
  {
    assert (times + [t])[..|times + [t]| - 1] == times;
  }

  lemma ForwardParts(times: seq<real>, later: seq<real>)
    requires times != [] && later != [] && Forward(times + later)
    ensures var m := |later| - 1;
      Forward(times) && Forward(times + later[..m]) && times + later == times + later[..m] + [later[m]]
      && times[|times| - 1] <= later[m] && (m > 0 ==> times[|times| - 1] <= later[m - 1] <= later[m])
  {
    var all, m := times + later, |later| - 1;
    assert forall i :: 0 <= i < |times| ==> times[i] == all[i];
    assert forall i :: 0 <= i < |later| ==> later[i] == all[|times| + i];
    assert all[..|all| - 1] == times + later[..m];
  }

  /** Refilling in two stages is refilling once. */
  lemma RefillComposes(c: Config, b: Bucket, s: real, t: real)
    requires Positive(c) && b.tokens <= c.burst && b.lastFill <= s <= t
    ensures Refill(c, Refill(c, b, s), t) == Refill(c, b, t)
  {
    EarnedAdds(c, b.lastFill, s, t);
    EarnedGrows(c, b.lastFill, s);
    EarnedGrows(c, s, t);
  }

  /** After denied calls, a call is answered as if they had not been made. */
  lemma {:induction false} DeniedCallsLeaveNoTrace(c: Config, times: seq<real>, later: seq<real>)
    requires c.burst >= 1.0 && Positive(c) && times != [] && later != [] && Forward(times + later)
    requires AllDenied(c, times, later[..|later| - 1]) && After(c, times).Some?
    ensures var r := Refill(c, After(c, times).value, later[|later| - 1]);
      Answer(c, times + later) == (r.tokens >= 1.0) && (r.tokens < 1.0 ==> After(c, times + later) == Some(r))
    decreases |later|
  {
    hide Earned;
    var b, m := After(c, times).value, |later| - 1;
    ForwardParts(times, later);
    AfterFromLevel(c, times);
    OneMoreCall(c, times + later[..m], later[m]);
    if m == 0 {
      assert times + later[..m] == times;
    } else {
      DeniedCallsLeaveNoTrace(c, times, later[..m]);
      RefillComposes(c, b, later[m - 1], later[m]);
    }
  }

  /** RetryAfter is enough: after a denial, once the wait that it returned at
      `now` has passed, the next call is granted, whatever denied calls came in
      between. */
  lemma {:induction false} RetryAfterSuffices(c: Config, times: seq<real>, later: seq<real>, now: real, t: real)
    requires c.burst >= 1.0 && Positive(c) && times != [] && Forward(times + (later + [t]))
    requires !Answer(c, times) && AllDenied(c, times, later)
    requires times[|times| - 1] <= now && t >= now + WaitFor(c, After(c, times).value, now)
    ensures Answer(c, times + (later + [t]))
  {
    hide Earned;
    assert (later + [t])[..|later|] == later;
    ForwardParts(times, later + [t]);
    AfterFromLevel(c, times);
    WaitIsExact(c, After(c, times).value, now, t);
    DeniedCallsLeaveNoTrace(c, times, later + [t]);
  }

  /** RetryAfter is tight: every call made more than a millisecond before the
      returned wait has passed is still denied. */
  lemma {:induction false} RetryAfterIsTight(c: Config, times: seq<real>, later: seq<real>, now: real)
    requires c.burst >= 1.0 && Positive(c) && times != [] && Forward(times + later)
    requires !Answer(c, times) && times[|times| - 1] <= now
    requires WaitFor(c, After(c, times).value, now) > 0.0
    requires later != [] ==> later[|later| - 1] < now + WaitFor(c, After(c, times).value, now) - 0.001
    ensures AllDenied(c, times, later)
    decreases |later|
  {
    hide Earned;
    if later != [] {
      var m := |later| - 1;
      ForwardParts(times, later);
      AfterFromLevel(c, times);
      RetryAfterIsTight(c, times, later[..m], now);
      WaitIsExact(c, After(c, times).value, now, later[m]);
      DeniedCallsLeaveNoTrace(c, times, later);
    }
  }
}
