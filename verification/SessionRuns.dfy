/** Every run of the session handlers, with Refresh split at its two critical
    sections: the blacklist check and the revocation. */
module SessionRuns {
  import opened Wrappers
  import opened Clock
  import opened SessionTokens

  /** Where an unfinished Refresh call stands. */
  datatype Phase = Checked(token: Token) | Spent(token: Token)

  datatype State = State(
    now: int, bl: map<string, int>,
    handed: set<Token>,           // returned to some client
    jtis: set<string>,            // jtis issued so far
    revoked: set<Token>,          // ever revoked
    calls: map<nat, Phase>,       // refreshes in flight
    parents: seq<Token>,          // refresh tokens that got a successor
    grants: nat)                  // successful logins and registrations

  datatype Action =
    | Tick(d: nat)
    | Login(sub: int, accessJTI: string, refreshJTI: string)
    | Ask(token: Token)
    | Logout(token: Token, parsed: int)
    | Check(call: nat, token: Token, parsed: int)
    | Revoke(call: nat)
    | Finish(call: nat, accessJTI: string, refreshJTI: string, userExists: bool)

  datatype Issuers = Issuers(accessTTL: int, refreshTTL: int) {
    function Access(): Issuer { Issuer(Kind.Access, accessTTL) }
    function Refresh(): Issuer { Issuer(Kind.Refresh, refreshTTL) }
  }

  function Init(now: int): State {
    State(now, map[], {}, {}, {}, map[], [], 0)
  }

  /** A jti is random, hence new, or empty: a claim that was never set. */
  predicate FreshJTIs(s: State, a: string, b: string) {
    (a == "" || a !in s.jtis) && (b == "" || (b !in s.jtis && a != b))
  }

  /** Clients present tokens that they were handed; anything else is unsigned. */
  predicate Enabled(cfg: Issuers, s: State, a: Action) {
    match a
    case Tick(_) => true
    case Login(_, x, y) => FreshJTIs(s, x, y)
    case Ask(t) => t in s.handed
    case Logout(t, parsed) =>
      t in s.handed && parsed <= s.now && RawClaims(cfg.Access(), Signed(t), parsed).Ok?
    case Check(c, t, parsed) =>
      c !in s.calls && t in s.handed && parsed <= s.now && Accepts(cfg.Refresh(), s.bl, t, parsed, s.now)
    case Revoke(c) => c in s.calls && s.calls[c].Checked?
    case Finish(c, x, y, _) => c in s.calls && s.calls[c].Spent? && FreshJTIs(s, x, y)
  }

  function Hand(cfg: Issuers, s: State, sub: int, x: string, y: string): State {
    s.(handed := s.handed + {Issue(cfg.Access(), sub, x, s.now), Issue(cfg.Refresh(), sub, y, s.now)})
  }

  function Apply(cfg: Issuers, s: State, a: Action): State
    requires Enabled(cfg, s, a)
  {
    match a
    case Tick(d) => s.(now := s.now + d)
    case Login(sub, x, y) => Hand(cfg, s, sub, x, y).(jtis := s.jtis + {x, y}, grants := s.grants + 1)
    case Ask(t) => s.(bl := Asked(s.bl, t.jti, s.now))
    case Logout(t, _) => s.(bl := Revoked(s.bl, t.jti, t.exp * SECOND), revoked := s.revoked + {t})
    case Check(c, t, _) => s.(bl := Asked(s.bl, t.jti, s.now), calls := s.calls[c := Checked(t)])
    case Revoke(c) =>
      var t := s.calls[c].token;
      s.(bl := Revoked(s.bl, t.jti, t.exp * SECOND), revoked := s.revoked + {t}, calls := s.calls[c := Spent(t)])
    case Finish(c, x, y, userExists) =>
      var t := s.calls[c].token;
      var ended := s.(calls := s.calls - {c}, jtis := s.jtis + {x, y});
      if userExists then Hand(cfg, ended, t.sub, x, y).(parents := s.parents + [t]) else ended
  }

  ghost predicate Legal(cfg: Issuers, s: State, run: seq<Action>)
    decreases |run|
  {
    run == [] || (Enabled(cfg, s, run[0]) && Legal(cfg, Apply(cfg, s, run[0]), run[1..]))
  }

  ghost function Exec(cfg: Issuers, s: State, run: seq<Action>): State
    requires Legal(cfg, s, run)
    decreases |run|
  {
    if run == [] then s else Exec(cfg, Apply(cfg, s, run[0]), run[1..])
  }

  // ----- revocation is permanent, in every run -----

  ghost predicate Distinct(s: State) {
    (forall t :: t in s.handed ==> t.jti in s.jtis) &&
    (forall t, u :: t in s.handed && u in s.handed && t.jti == u.jti && t.jti != "" ==> t == u)
  }

  ghost predicate Forgotten(s: State) {
    s.revoked <= s.handed &&
    (forall c :: c in s.calls ==> s.calls[c].token in s.handed) &&
    (forall t :: t in s.handed && t.jti in s.bl ==> s.bl[t.jti] == t.exp * SECOND) &&
    (forall t :: t in s.revoked && t.jti != "" ==> Remembers(s.bl, t, s.now)) &&
    (forall jti :: jti in s.bl ==> jti in s.jtis && jti != "")
  }

  ghost predicate Inv(s: State) {
    Distinct(s) && Forgotten(s)
  }

  lemma HandKeepsInv(cfg: Issuers, s: State, sub: int, x: string, y: string)
    requires Inv(s) && FreshJTIs(s, x, y)
    ensures Inv(Hand(cfg, s, sub, x, y).(jtis := s.jtis + {x, y}))
  {}

  lemma RevokeKeepsInv(s: State, t: Token)
    requires Inv(s) && t in s.handed
    ensures Inv(s.(bl := Revoked(s.bl, t.jti, t.exp * SECOND), revoked := s.revoked + {t}))
  {}

  lemma AskKeepsInv(s: State, t: Token)
    requires Inv(s) && t in s.handed
    ensures Inv(s.(bl := Asked(s.bl, t.jti, s.now)))
  {}

  lemma LaterKeepsInv(s: State, d: nat)
    requires Inv(s)
    ensures Inv(s.(now := s.now + d))
  {}

  lemma CallsKeepInv(s: State, calls: map<nat, Phase>)
    requires Inv(s) && forall c :: c in calls ==> calls[c].token in s.handed
    ensures Inv(s.(calls := calls))
  {}

  lemma FinishKeepsInv(cfg: Issuers, s: State, a: Action)
    requires Inv(s) && a.Finish? && Enabled(cfg, s, a)
    ensures Inv(Apply(cfg, s, a))
  {
    hide Issue, Remembers;
    var ended := s.(calls := s.calls - {a.call});
    CallsKeepInv(s, ended.calls);
    HandKeepsInv(cfg, ended, s.calls[a.call].token.sub, a.accessJTI, a.refreshJTI);
  }

  lemma {:induction false} ApplyKeepsInv(cfg: Issuers, s: State, a: Action)
    requires Enabled(cfg, s, a) && Inv(s)
    ensures Inv(Apply(cfg, s, a))
  {
    hide Issue, Accepts, RawClaims, Asked, Revoked, Remembers;
    match a
    case Tick(d) => LaterKeepsInv(s, d);
    case Login(sub, x, y) => HandKeepsInv(cfg, s, sub, x, y);
    case Ask(t) => AskKeepsInv(s, t);
    case Logout(t, _) => RevokeKeepsInv(s, t);
    case Check(c, t, _) =>
      AskKeepsInv(s, t);
      CallsKeepInv(s.(bl := Asked(s.bl, t.jti, s.now)), s.calls[c := Checked(t)]);
    case Revoke(c) =>
      var t := s.calls[c].token;
      RevokeKeepsInv(s, t);
      CallsKeepInv(s.(bl := Revoked(s.bl, t.jti, t.exp * SECOND), revoked := s.revoked + {t}), s.calls[c := Spent(t)]);
    case Finish(_, _, _, _) => FinishKeepsInv(cfg, s, a);
  }

  lemma {:induction false} ExecKeepsInv(cfg: Issuers, s: State, run: seq<Action>)
    requires Legal(cfg, s, run) && Inv(s)
    ensures Inv(Exec(cfg, s, run))
    decreases |run|
  {
    if run != [] {
      ApplyKeepsInv(cfg, s, run[0]);
      ExecKeepsInv(cfg, Apply(cfg, s, run[0]), run[1..]);
    }
  }

  /** In every run, overlapping or not: a revoked token with a jti is accepted by
      a later check exactly when its two clock readings straddle `exp`, so
      never by a check made at one instant. */
  lemma RevocationIsPermanent(cfg: Issuers, now: int, run: seq<Action>, i: Issuer, t: Token, parsed: int, asked: int)
    requires Legal(cfg, Init(now), run)
    requires var s := Exec(cfg, Init(now), run);
      t in s.revoked && t.jti != "" && t.kind == i.kind && parsed <= asked && s.now <= asked
    ensures var s := Exec(cfg, Init(now), run);
      Accepts(i, s.bl, t, parsed, asked) <==> parsed < t.exp * SECOND < asked
    ensures parsed == asked ==> !Accepts(i, Exec(cfg, Init(now), run).bl, t, parsed, asked)
  {
    ExecKeepsInv(cfg, Init(now), run);
    RevokedAcceptedIffStraddling(i, Exec(cfg, Init(now), run).bl, t, Exec(cfg, Init(now), run).now, parsed, asked);
  }

  // ----- exactly which tokens are accepted, in every run -----

  /** Nothing is on the blacklist that was not revoked. */
  ghost predicate Grounded(s: State) {
    forall jti :: jti in s.bl ==> exists t :: t in s.revoked && t.jti == jti
  }

  lemma {:induction false} ApplyKeepsGrounded(cfg: Issuers, s: State, a: Action)
    requires Enabled(cfg, s, a) && Grounded(s)
    ensures Grounded(Apply(cfg, s, a))
  {
    hide Issue, Accepts, RawClaims;
    var r := Apply(cfg, s, a);
    forall jti | jti in r.bl ensures exists t :: t in r.revoked && t.jti == jti {
      if jti in s.bl {
        var t :| t in s.revoked && t.jti == jti;
        assert t in r.revoked;
      } else {
        var t := if a.Logout? then a.token else s.calls[a.call].token;
        assert t in r.revoked && t.jti == jti;
      }
    }
  }

  lemma {:induction false} ExecKeepsGrounded(cfg: Issuers, s: State, run: seq<Action>)
    requires Legal(cfg, s, run) && Grounded(s)
    ensures Grounded(Exec(cfg, s, run))
    decreases |run|
  {
    if run != [] {
      ApplyKeepsGrounded(cfg, s, run[0]);
      ExecKeepsGrounded(cfg, Apply(cfg, s, run[0]), run[1..]);
    }
  }

  /** In every run a token with a jti that was handed out is accepted exactly by
      an issuer of its kind, before it expires, and if it was revoked only by a
      check that straddles `exp`. */
  lemma AcceptedIff(cfg: Issuers, now: int, run: seq<Action>, i: Issuer, t: Token, parsed: int, asked: int)
    requires Legal(cfg, Init(now), run)
    requires var s := Exec(cfg, Init(now), run);
      t in s.handed && t.jti != "" && parsed <= asked && s.now <= asked
    ensures var s := Exec(cfg, Init(now), run);
      Accepts(i, s.bl, t, parsed, asked) <==>
        t.kind == i.kind && parsed < t.exp * SECOND && (t in s.revoked ==> t.exp * SECOND < asked)
  {
    var s := Exec(cfg, Init(now), run);
    ExecKeepsInv(cfg, Init(now), run);
    ExecKeepsGrounded(cfg, Init(now), run);
    if t in s.revoked && t.kind == i.kind {
      RevokedAcceptedIffStraddling(i, s.bl, t, s.now, parsed, asked);
    }
  }

  // ----- whose tokens they are -----

  /** The user for whom a step hands out a pair, if it does. */
  function PairFor(s: State, a: Action): Option<int> {
    match a
    case Login(sub, _, _) => Some(sub)
    case Finish(c, _, _, userExists) =>
      if c in s.calls && userExists then Some(s.calls[c].token.sub) else None
    case _ => None
  }

  /** A login hands its user one access and one refresh token, a refresh hands
      them to the user of the token it was given, and nothing else hands out
      anything. The pair is accepted at once if it lives for a second. */
  lemma PairIsGood(cfg: Issuers, s: State, a: Action)
    requires Enabled(cfg, s, a) && Inv(s)
    ensures var r := Apply(cfg, s, a);
      match PairFor(s, a)
      case None => r.handed == s.handed
      case Some(sub) =>
        exists x, y ::
          r.handed == s.handed + {x, y} && x.sub == sub == y.sub && x.kind.Access? && y.kind.Refresh? &&
          x.jti == a.accessJTI && y.jti == a.refreshJTI &&
          (cfg.accessTTL >= SECOND ==> Accepts(cfg.Access(), r.bl, x, r.now, r.now)) &&
          (cfg.refreshTTL >= SECOND ==> Accepts(cfg.Refresh(), r.bl, y, r.now, r.now))
  {
    var r := Apply(cfg, s, a);
    if PairFor(s, a).Some? {
      var sub := PairFor(s, a).value;
      var x := Issue(cfg.Access(), sub, a.accessJTI, s.now);
      var y := Issue(cfg.Refresh(), sub, a.refreshJTI, s.now);
      assert r.handed == s.handed + {x, y};
    }
  }

  /** The users that log in during the run. */
  function LoggedIn(run: seq<Action>): set<int> {
    set a | a in run && a.Login? :: a.sub
  }

  lemma {:induction false} SubjectsStay(cfg: Issuers, s: State, run: seq<Action>, subs: set<int>)
    requires Legal(cfg, s, run) && Inv(s) && forall t :: t in s.handed ==> t.sub in subs
    ensures forall t :: t in Exec(cfg, s, run).handed ==> t.sub in subs + LoggedIn(run)
    decreases |run|
  {
    hide Inv, Accepts, RawClaims, Asked, Revoked;
    if run != [] {
      var a, r := run[0], Apply(cfg, s, run[0]);
      ApplyKeepsInv(cfg, s, a);
      var more := if a.Login? then subs + {a.sub} else subs;
      forall t | t in r.handed ensures t.sub in more {
        CallersHoldHanded(s);
      }
      SubjectsStay(cfg, r, run[1..], more);
      assert more + LoggedIn(run[1..]) <= subs + LoggedIn(run);
    }
  }

  lemma CallersHoldHanded(s: State)
    requires Inv(s)
    ensures forall c :: c in s.calls ==> s.calls[c].token in s.handed
  {}

  /** In every run every token belongs to a user that logged in. */
  lemma TokensBelongToLogins(cfg: Issuers, now: int, run: seq<Action>, t: Token)
    requires Legal(cfg, Init(now), run) && t in Exec(cfg, Init(now), run).handed
    ensures t.sub in LoggedIn(run)
  {
    SubjectsStay(cfg, Init(now), run, {});
  }

  // ----- one successor per refresh token -----

  /** Only refresh tokens are ever traded in. */
  ghost predicate RefreshOnly(s: State) {
    (forall c :: c in s.calls ==> s.calls[c].token.kind.Refresh?) &&
    (forall t :: t in s.parents ==> t.kind.Refresh?)
  }

  lemma {:induction false} ExecKeepsRefreshOnly(cfg: Issuers, s: State, run: seq<Action>)
    requires Legal(cfg, s, run) && RefreshOnly(s)
    ensures RefreshOnly(Exec(cfg, s, run))
    decreases |run|
  {
    if run != [] {
      ExecKeepsRefreshOnly(cfg, Apply(cfg, s, run[0]), run[1..]);
    }
  }

  /** In every run, overlapping or not, only refresh tokens get a successor. */
  lemma OnlyRefreshTokensHaveSuccessors(cfg: Issuers, now: int, run: seq<Action>)
    requires Legal(cfg, Init(now), run)
    ensures forall t :: t in Exec(cfg, Init(now), run).parents ==> t.kind.Refresh?
  {
    ExecKeepsRefreshOnly(cfg, Init(now), run);
  }

  /** No refresh of `t` is in flight. */
  ghost predicate Unused(s: State, t: Token) {
    forall c :: c in s.calls ==> s.calls[c].token != t
  }

  /** A refresh of `t` starts alone and, if `t` was revoked, its readings do not
      straddle `exp`; other tokens are under no condition. */
  ghost predicate CarefulWith(s: State, a: Action, t: Token) {
    a.Check? && a.token == t ==> Unused(s, t) && (t in s.revoked ==> !(a.parsed < t.exp * SECOND < s.now))
  }

  ghost predicate CarefulRunWith(cfg: Issuers, s: State, run: seq<Action>, t: Token)
    requires Legal(cfg, s, run)
    decreases |run|
  {
    run == [] || (CarefulWith(s, run[0], t) && CarefulRunWith(cfg, Apply(cfg, s, run[0]), run[1..], t))
  }

  ghost predicate AtMostOnce(parents: seq<Token>, t: Token) {
    forall i, j :: 0 <= i < j < |parents| ==> !(parents[i] == t == parents[j])
  }

  ghost predicate SingleUse(s: State, t: Token) {
    (forall c, d :: c in s.calls && d in s.calls && s.calls[c].token == t == s.calls[d].token ==> c == d) &&
    (forall c :: c in s.calls && s.calls[c].token == t ==> t !in s.parents && (s.calls[c].Spent? ==> t in s.revoked)) &&
    (t in s.parents ==> t in s.revoked) && AtMostOnce(s.parents, t)
  }

  lemma {:induction false} ApplyKeepsSingleUse(cfg: Issuers, s: State, a: Action, t: Token)
    requires Enabled(cfg, s, a) && CarefulWith(s, a, t) && t.jti != "" && Inv(s) && SingleUse(s, t)
    ensures SingleUse(Apply(cfg, s, a), t)
  {
    hide Issue, Asked, Revoked, Accepts, RawClaims, Remembers, Distinct, Forgotten;
    if a.Check? && a.token == t && t in s.revoked {
      RevokedIsRejected(cfg.Refresh(), s, t, a.parsed);
    }
  }

  lemma {:induction false} ExecKeepsSingleUse(cfg: Issuers, s: State, run: seq<Action>, t: Token)
    requires Legal(cfg, s, run) && CarefulRunWith(cfg, s, run, t) && t.jti != "" && Inv(s) && SingleUse(s, t)
    ensures SingleUse(Exec(cfg, s, run), t)
    decreases |run|
  {
    if run != [] {
      ApplyKeepsInv(cfg, s, run[0]);
      ApplyKeepsSingleUse(cfg, s, run[0], t);
      ExecKeepsSingleUse(cfg, Apply(cfg, s, run[0]), run[1..], t);
    }
  }

  /** A refresh token with a jti gets at most one successor in every run in
      which its own refreshes do not overlap, nor straddle `exp` once it is
      revoked. */
  lemma OneSuccessor(cfg: Issuers, now: int, run: seq<Action>, t: Token)
    requires Legal(cfg, Init(now), run) && CarefulRunWith(cfg, Init(now), run, t) && t.jti != ""
    ensures AtMostOnce(Exec(cfg, Init(now), run).parents, t)
  {
    ExecKeepsSingleUse(cfg, Init(now), run, t);
  }

  /** Whatever happens next, short of another careless refresh of `t`. */
  ghost predicate StaysSingle(cfg: Issuers, s: State, t: Token) {
    forall run: seq<Action> :: Legal(cfg, s, run) && CarefulRunWith(cfg, s, run, t) ==>
      AtMostOnce(Exec(cfg, s, run).parents, t)
  }

  /** A refresh that passed the check can go through. */
  lemma CanFinish(cfg: Issuers, s: State, c: nat, x: string, y: string) returns (run: seq<Action>)
    requires c in s.calls && FreshJTIs(s, x, y)
    ensures Legal(cfg, s, run) && var r := Exec(cfg, s, run);
      r.parents == s.parents + [s.calls[c].token] && r.calls == s.calls - {c} && r.jtis == s.jtis + {x, y}
    ensures CarefulRunWith(cfg, s, run, s.calls[c].token)
  {
    var t := s.calls[c].token;
    var u := if s.calls[c].Checked? then Apply(cfg, s, Revoke(c)) else s;
    var v := Apply(cfg, u, Finish(c, x, y, true));
    var last := [Finish(c, x, y, true)];
    assert last[1..] == [];
    assert Legal(cfg, v, []) && CarefulRunWith(cfg, v, [], t) && Exec(cfg, v, []) == v;
    assert Legal(cfg, u, last) && CarefulRunWith(cfg, u, last, t) && Exec(cfg, u, last) == v;
    if s.calls[c].Checked? {
      run := [Revoke(c)] + last;
      assert run[1..] == last;
      assert Legal(cfg, s, run) && Exec(cfg, s, run) == v;
    } else {
      run := last;
    }
    assert v.calls == s.calls - {c};
  }

  /** Letting a refresh of `t` past the check keeps `t` at one successor in every
      careful continuation exactly when no other refresh of it is in flight and
      it was not traded in before; if it was, the readings straddle `exp`. */
  lemma CheckIsSafeIff(cfg: Issuers, s: State, c: nat, t: Token, parsed: int)
    requires Enabled(cfg, s, Check(c, t, parsed)) && t.jti != "" && Inv(s) && SingleUse(s, t)
    ensures StaysSingle(cfg, Apply(cfg, s, Check(c, t, parsed)), t) <==> Unused(s, t) && t !in s.parents
    ensures t in s.parents ==> parsed < t.exp * SECOND < s.now
  {
    hide Issue, Asked, Revoked, Accepts, RawClaims, Remembers, Distinct, Forgotten;
    var u := Apply(cfg, s, Check(c, t, parsed));
    if t in s.parents && !(parsed < t.exp * SECOND < s.now) {
      RevokedIsRejected(cfg.Refresh(), s, t, parsed);
    }
    if Unused(s, t) && t !in s.parents {
      ApplyKeepsInv(cfg, s, Check(c, t, parsed));
      assert SingleUse(u, t);
      forall run: seq<Action> | Legal(cfg, u, run) && CarefulRunWith(cfg, u, run, t)
        ensures AtMostOnce(Exec(cfg, u, run).parents, t)
      {
        ExecKeepsSingleUse(cfg, u, run, t);
      }
    } else if t in s.parents {
      var run := CanFinish(cfg, u, c, "", "");
      TwiceIsNotOnce(s.parents, t);
    } else {
      var d :| d in s.calls && s.calls[d].token == t;
      var first := CanFinish(cfg, u, d, "", "");
      var mid := Exec(cfg, u, first);
      var second := CanFinish(cfg, mid, c, "", "");
      RunsCompose(cfg, u, first, second);
      CarefulRunsCompose(cfg, u, first, second, t);
      TwiceIsNotOnce(mid.parents, t);
    }
  }

  lemma TwiceIsNotOnce(parents: seq<Token>, t: Token)
    requires t in parents
    ensures !AtMostOnce(parents + [t], t)
  {
    var i :| 0 <= i < |parents| && parents[i] == t;
    var more := parents + [t];
    assert more[i] == t == more[|parents|];
  }

  lemma {:induction false} CarefulRunsCompose(cfg: Issuers, s: State, a: seq<Action>, b: seq<Action>, t: Token)
    requires Legal(cfg, s, a) && Legal(cfg, Exec(cfg, s, a), b) && Legal(cfg, s, a + b)
    requires CarefulRunWith(cfg, s, a, t) && CarefulRunWith(cfg, Exec(cfg, s, a), b, t)
    ensures CarefulRunWith(cfg, s, a + b, t)
    decreases |a|
  {
    if a == [] {
      assert a + b == b;
    } else {
      assert (a + b)[1..] == a[1..] + b;
      CarefulRunsCompose(cfg, Apply(cfg, s, a[0]), a[1..], b, t);
    }
  }

  // ----- live refresh tokens, in runs without overlap -----

  /** Every refresh is careful with its token, and no refresh token goes without
      a jti. */
  ghost predicate Careful(s: State, a: Action) {
    match a
    case Login(_, _, y) => y != ""
    case Finish(_, _, y, _) => y != ""
    case Check(_, t, _) => CarefulWith(s, a, t)
    case _ => true
  }

  ghost predicate CarefulRun(cfg: Issuers, s: State, run: seq<Action>)
    requires Legal(cfg, s, run)
    decreases |run|
  {
    run == [] || (Careful(s, run[0]) && CarefulRun(cfg, Apply(cfg, s, run[0]), run[1..]))
  }

  /** Refresh tokens in clients' hands that were never traded in. */
  ghost function Open(s: State): set<Token> {
    set t | t in s.handed && t.kind.Refresh? && t !in s.revoked
  }

  /** Refreshes that have taken a token and not yet returned one. */
  ghost function Owing(s: State): set<nat> {
    set c | c in s.calls && s.calls[c].Spent?
  }

  /** Every refresh token has a jti, no two calls share one, and none that is
      only checked was revoked. */
  ghost predicate Orderly(s: State) {
    (forall t :: t in s.handed && t.kind.Refresh? ==> t.jti != "") &&
    (forall c :: c in s.calls ==> s.calls[c].token.kind.Refresh?) &&
    (forall c :: c in s.calls && s.calls[c].Checked? ==> s.calls[c].token !in s.revoked) &&
    (forall c, d :: c in s.calls && d in s.calls && c != d ==> s.calls[c].token != s.calls[d].token)
  }

  ghost predicate Balanced(s: State) {
    |Open(s)| + |Owing(s)| <= s.grants
  }

  lemma RevokedIsRejected(i: Issuer, s: State, t: Token, parsed: int)
    requires Inv(s) && t in s.revoked && t.jti != "" && parsed <= s.now && !(parsed < t.exp * SECOND < s.now)
    ensures !Accepts(i, s.bl, t, parsed, s.now)
  {
    if t.kind == i.kind {
      RevokedAcceptedIffStraddling(i, s.bl, t, s.now, parsed, s.now);
    }
  }

  lemma CheckKeepsOrderly(cfg: Issuers, s: State, c: nat, t: Token, parsed: int)
    requires Inv(s) && Orderly(s) && Enabled(cfg, s, Check(c, t, parsed)) && Careful(s, Check(c, t, parsed))
    ensures Orderly(Apply(cfg, s, Check(c, t, parsed)))
  {
    if t in s.revoked {
      RevokedIsRejected(cfg.Refresh(), s, t, parsed);
    }
  }

  /** Only tokens, revocations and calls matter. */
  lemma OrderlyFrame(s: State, r: State)
    requires Orderly(s) && r.handed == s.handed && r.revoked == s.revoked && r.calls == s.calls
    ensures Orderly(r)
  {}

  lemma SpendKeepsOrderly(s: State, c: nat)
    requires Orderly(s) && c in s.calls && s.calls[c].Checked?
    ensures var t := s.calls[c].token;
      Orderly(s.(revoked := s.revoked + {t}, calls := s.calls[c := Spent(t)]))
  {
    var t := s.calls[c].token;
    var r := s.(revoked := s.revoked + {t}, calls := s.calls[c := Spent(t)]);
    assert forall d :: d in r.calls ==> r.calls[d].token == s.calls[d].token;
  }

  lemma EndingKeepsOrderly(s: State, c: nat)
    requires Orderly(s)
    ensures Orderly(s.(calls := s.calls - {c}))
  {
    var r := s.(calls := s.calls - {c});
    assert forall d :: d in r.calls ==> d in s.calls && r.calls[d] == s.calls[d];
  }

  lemma HandingKeepsOrderly(cfg: Issuers, s: State, sub: int, x: string, y: string)
    requires Orderly(s) && y != ""
    ensures Orderly(Hand(cfg, s, sub, x, y))
  {}

  lemma FinishKeepsOrderly(cfg: Issuers, s: State, a: Action)
    requires Orderly(s) && a.Finish? && Enabled(cfg, s, a) && Careful(s, a)
    ensures Orderly(Apply(cfg, s, a))
  {
    hide Issue;
    var t := s.calls[a.call].token;
    var ended := s.(calls := s.calls - {a.call});
    EndingKeepsOrderly(s, a.call);
    HandingKeepsOrderly(cfg, ended, t.sub, a.accessJTI, a.refreshJTI);
    OrderlyFrame(if a.userExists then Hand(cfg, ended, t.sub, a.accessJTI, a.refreshJTI) else ended, Apply(cfg, s, a));
  }

  lemma LogoutKeepsOrderly(cfg: Issuers, s: State, t: Token, parsed: int)
    requires Orderly(s) && Enabled(cfg, s, Logout(t, parsed))
    ensures Orderly(Apply(cfg, s, Logout(t, parsed)))
  {
    hide Revoked;
    assert t.kind.Access?;
  }

  lemma {:induction false} ApplyKeepsOrderly(cfg: Issuers, s: State, a: Action)
    requires Enabled(cfg, s, a) && Careful(s, a) && Inv(s) && Orderly(s)
    ensures Orderly(Apply(cfg, s, a))
  {
    hide Issue, Asked, Revoked, Accepts, RawClaims, Remembers, Distinct, Forgotten, Orderly;
    var r := Apply(cfg, s, a);
    match a
    case Tick(_) => OrderlyFrame(s, r);
    case Login(sub, x, y) =>
      HandingKeepsOrderly(cfg, s, sub, x, y);
      OrderlyFrame(Hand(cfg, s, sub, x, y), r);
    case Ask(_) => OrderlyFrame(s, r);
    case Logout(t, parsed) => LogoutKeepsOrderly(cfg, s, t, parsed);
    case Check(c, t, parsed) => CheckKeepsOrderly(cfg, s, c, t, parsed);
    case Revoke(c) =>
      SpendKeepsOrderly(s, c);
      OrderlyFrame(s.(revoked := s.revoked + {s.calls[c].token}, calls := s.calls[c := Spent(s.calls[c].token)]), r);
    case Finish(_, _, _, _) => FinishKeepsOrderly(cfg, s, a);
  }

  /** One new refresh token raises the count of open ones by at most one. */
  lemma HandingOpensOne(cfg: Issuers, s: State, sub: int, x: string, y: string)
    ensures |Open(Hand(cfg, s, sub, x, y))| <= |Open(s)| + 1
  {
    var added := Issue(cfg.Refresh(), sub, y, s.now);
    SubsetIsSmaller(Open(Hand(cfg, s, sub, x, y)), Open(s) + {added});
  }

  lemma SameOpenAndOwing(s: State, r: State)
    requires Balanced(s) && r.grants == s.grants && r.handed == s.handed && s.revoked <= r.revoked
    requires forall t :: t in r.revoked - s.revoked ==> t.kind.Access?
    requires forall c :: c in r.calls && r.calls[c].Spent? <==> c in s.calls && s.calls[c].Spent?
    ensures Balanced(r)
  {
    assert Open(r) == Open(s) && Owing(r) == Owing(s);
  }

  lemma SpendKeepsBalance(s: State, c: nat)
    requires Orderly(s) && Balanced(s) && c in s.calls && s.calls[c].Checked? && s.calls[c].token in s.handed
    ensures var t := s.calls[c].token;
      Balanced(s.(revoked := s.revoked + {t}, calls := s.calls[c := Spent(t)]))
  {
    var t := s.calls[c].token;
    var r := s.(revoked := s.revoked + {t}, calls := s.calls[c := Spent(t)]);
    assert t in Open(s) && Open(r) == Open(s) - {t};
    assert c !in Owing(s) && Owing(r) == Owing(s) + {c};
  }

  lemma FinishKeepsBalance(cfg: Issuers, s: State, a: Action)
    requires Balanced(s) && a.Finish? && Enabled(cfg, s, a)
    ensures Balanced(Apply(cfg, s, a))
  {
    hide Issue;
    var r, t := Apply(cfg, s, a), s.calls[a.call].token;
    assert a.call in Owing(s) && Owing(r) == Owing(s) - {a.call};
    HandingOpensOne(cfg, s, t.sub, a.accessJTI, a.refreshJTI);
    if a.userExists {
      assert Open(r) == Open(Hand(cfg, s, t.sub, a.accessJTI, a.refreshJTI));
    } else {
      assert Open(r) == Open(s);
    }
  }

  lemma ApplyKeepsBalance(cfg: Issuers, s: State, a: Action)
    requires Enabled(cfg, s, a) && Inv(s) && Orderly(s) && Balanced(s)
    ensures Balanced(Apply(cfg, s, a))
  {
    hide Issue, Asked, Revoked, Open, Owing;
    match a
    case Tick(_) => SameOpenAndOwing(s, Apply(cfg, s, a));
    case Ask(_) => SameOpenAndOwing(s, Apply(cfg, s, a));
    case Logout(_, _) => SameOpenAndOwing(s, Apply(cfg, s, a));
    case Check(_, _, _) => SameOpenAndOwing(s, Apply(cfg, s, a));
    case Login(sub, x, y) => LoginKeepsBalance(cfg, s, sub, x, y);
    case Revoke(c) => RevokeKeepsBalance(cfg, s, c);
    case Finish(_, _, _, _) => FinishKeepsBalance(cfg, s, a);
  }

  lemma LoginKeepsBalance(cfg: Issuers, s: State, sub: int, x: string, y: string)
    requires Balanced(s) && Enabled(cfg, s, Login(sub, x, y))
    ensures Balanced(Apply(cfg, s, Login(sub, x, y)))
  {
    hide Issue;
    var r := Apply(cfg, s, Login(sub, x, y));
    HandingOpensOne(cfg, s, sub, x, y);
    assert Open(r) == Open(Hand(cfg, s, sub, x, y)) && Owing(r) == Owing(s);
  }

  lemma RevokeKeepsBalance(cfg: Issuers, s: State, c: nat)
    requires Inv(s) && Orderly(s) && Balanced(s) && Enabled(cfg, s, Revoke(c))
    ensures Balanced(Apply(cfg, s, Revoke(c)))
  {
    hide Revoked;
    SpendKeepsBalance(s, c);
    var t := s.calls[c].token;
    var r, u := Apply(cfg, s, Revoke(c)), s.(revoked := s.revoked + {t}, calls := s.calls[c := Spent(t)]);
    assert Open(r) == Open(u) && Owing(r) == Owing(u);
  }

  lemma {:induction false} ExecKeepsOrderly(cfg: Issuers, s: State, run: seq<Action>)
    requires Legal(cfg, s, run) && CarefulRun(cfg, s, run) && Inv(s) && Orderly(s) && Balanced(s)
    ensures var r := Exec(cfg, s, run); Inv(r) && Orderly(r) && Balanced(r)
    decreases |run|
  {
    if run != [] {
      ApplyKeepsInv(cfg, s, run[0]);
      ApplyKeepsOrderly(cfg, s, run[0]);
      ApplyKeepsBalance(cfg, s, run[0]);
      ExecKeepsOrderly(cfg, Apply(cfg, s, run[0]), run[1..]);
    }
  }

  /** Refresh tokens that a refresh would accept now. */
  ghost function Live(cfg: Issuers, s: State): set<Token> {
    set t | t in s.handed && Accepts(cfg.Refresh(), s.bl, t, s.now, s.now)
  }

  lemma SubsetIsSmaller<T>(a: set<T>, b: set<T>)
    requires a <= b
    ensures |a| <= |b|
  {
    assert b == a + (b - a);
  }

  /** In every run in which all refreshes are careful and all refresh tokens have
      a jti, no more refresh tokens are alive than there were logins and
      registrations. */
  lemma LiveWithinGrants(cfg: Issuers, now: int, run: seq<Action>)
    requires Legal(cfg, Init(now), run) && CarefulRun(cfg, Init(now), run)
    ensures var s := Exec(cfg, Init(now), run); |Live(cfg, s)| <= s.grants
  {
    assert Open(Init(now)) == {} && Owing(Init(now)) == {};
    ExecKeepsOrderly(cfg, Init(now), run);
    var s := Exec(cfg, Init(now), run);
    forall t | t in Live(cfg, s) ensures t in Open(s) {
      if t in s.revoked {
        RevokedIsRejected(cfg.Refresh(), s, t, s.now);
      }
    }
    SubsetIsSmaller(Live(cfg, s), Open(s));
  }

  // ----- each condition is needed -----

  /** The jtis of two refreshes, all of them new. */
  datatype Jtis = Jtis(a0: string, r0: string, a1: string, r1: string) {
    predicate New(s: State) {
      {a0, r0, a1, r1} !! s.jtis + {""} && a0 != r0 && a0 != a1 && a0 != r1 && r0 != a1 && r0 != r1 && a1 != r1
    }
  }

  /** One whole refresh, which nothing interrupts. */
  function TradeIn(c: nat, t: Token, parsed: int, x: string, y: string): seq<Action> {
    [Check(c, t, parsed), Revoke(c), Finish(c, x, y, true)]
  }

  /** It leaves the blacklist and hands out the pair as RefreshTokens does. */
  lemma TradeInWorks(cfg: Issuers, s: State, c: nat, t: Token, parsed: int, x: string, y: string)
    requires Enabled(cfg, s, Check(c, t, parsed)) && FreshJTIs(s, x, y)
    ensures Legal(cfg, s, TradeIn(c, t, parsed, x, y))
    ensures var r := Exec(cfg, s, TradeIn(c, t, parsed, x, y));
      r.parents == s.parents + [t] && r.calls == s.calls && r.now == s.now
      && r.handed == s.handed + {Issue(cfg.Access(), t.sub, x, s.now), Issue(cfg.Refresh(), t.sub, y, s.now)}
      && r.jtis == s.jtis + {x, y} && r.bl == Revoked(Asked(s.bl, t.jti, s.now), t.jti, t.exp * SECOND)
  {
    var s1 := Apply(cfg, s, Check(c, t, parsed));
    var s2 := Apply(cfg, s1, Revoke(c));
    var s3 := Apply(cfg, s2, Finish(c, x, y, true));
    assert s3.calls == s.calls;
    LegalBySteps(cfg, TradeIn(c, t, parsed, x, y), [s, s1, s2, s3], 0);
  }

  lemma {:induction false} LegalBySteps(cfg: Issuers, run: seq<Action>, ss: seq<State>, k: nat)
    requires |ss| == |run| + 1 && k <= |run|
    requires forall i :: 0 <= i < |run| ==> Enabled(cfg, ss[i], run[i]) && ss[i + 1] == Apply(cfg, ss[i], run[i])
    ensures Legal(cfg, ss[k], run[k..]) && Exec(cfg, ss[k], run[k..]) == ss[|run|]
    ensures run[0..] == run
    decreases |run| - k
  {
    if k < |run| {
      LegalBySteps(cfg, run, ss, k + 1);
      assert run[k..][1..] == run[k + 1..];
    }
  }

  lemma {:induction false} RunsCompose(cfg: Issuers, s: State, a: seq<Action>, b: seq<Action>)
    requires Legal(cfg, s, a) && Legal(cfg, Exec(cfg, s, a), b)
    ensures Legal(cfg, s, a + b) && Exec(cfg, s, a + b) == Exec(cfg, Exec(cfg, s, a), b)
    decreases |a|
  {
    if a == [] {
      assert a + b == b;
    } else {
      assert (a + b)[1..] == a[1..] + b;
      RunsCompose(cfg, Apply(cfg, s, a[0]), a[1..], b);
    }
  }

  lemma BothPassTheCheck(cfg: Issuers, s: State, t: Token, c: nat, d: nat)
    requires c != d && c !in s.calls && d !in s.calls
    requires t in s.handed && Accepts(cfg.Refresh(), s.bl, t, s.now, s.now)
    ensures var run := [Check(c, t, s.now), Check(d, t, s.now)];
      Legal(cfg, s, run) && var r := Exec(cfg, s, run);
      r.calls == s.calls[c := Checked(t)][d := Checked(t)] && r.jtis == s.jtis && r.parents == s.parents
  {
    var run := [Check(c, t, s.now), Check(d, t, s.now)];
    var s1 := Apply(cfg, s, run[0]);
    assert !IsRevokedAt(s1.bl, t.jti, s.now);
    LegalBySteps(cfg, run, [s, s1, Apply(cfg, s1, run[1])], 0);
  }

  /** Any token that a refresh accepts gets two successors from two refreshes
      that overlap. */
  lemma OverlapGivesTwoSuccessors(cfg: Issuers, s: State, t: Token, j: Jtis, c: nat, d: nat)
    returns (run: seq<Action>)
    requires c != d && c !in s.calls && d !in s.calls
    requires t in s.handed && Accepts(cfg.Refresh(), s.bl, t, s.now, s.now) && j.New(s)
    ensures Legal(cfg, s, run) && Exec(cfg, s, run).parents == s.parents + [t, t]
  {
    hide Apply, Enabled, Accepts;
    var enter := [Check(c, t, s.now), Check(d, t, s.now)];
    BothPassTheCheck(cfg, s, t, c, d);
    var entered := Exec(cfg, s, enter);
    var first := CanFinish(cfg, entered, c, j.a0, j.r0);
    var second := CanFinish(cfg, Exec(cfg, entered, first), d, j.a1, j.r1);
    RunsCompose(cfg, entered, first, second);
    RunsCompose(cfg, s, enter, first + second);
    run := enter + (first + second);
  }

  /** So does any accepted token without a jti, one refresh after the other. */
  lemma EmptyJtiGivesTwoSuccessors(cfg: Issuers, s: State, t: Token, j: Jtis, c: nat)
    returns (run: seq<Action>)
    requires c !in s.calls && t in s.handed && Accepts(cfg.Refresh(), s.bl, t, s.now, s.now) && j.New(s)
    requires t.jti == ""
    ensures Legal(cfg, s, run) && Exec(cfg, s, run).parents == s.parents + [t, t]
  {
    var first, second := TradeIn(c, t, s.now, j.a0, j.r0), TradeIn(c, t, s.now, j.a1, j.r1);
    TradeInWorks(cfg, s, c, t, s.now, j.a0, j.r0);
    TradeInWorks(cfg, Exec(cfg, s, first), c, t, s.now, j.a1, j.r1);
    RunsCompose(cfg, s, first, second);
    run := first + second;
  }

  /** So does any accepted token, one refresh after the other, if the second
      reads its claims before `exp` and asks the blacklist after it. */
  lemma StraddlingGivesTwoSuccessors(cfg: Issuers, s: State, t: Token, j: Jtis, c: nat)
    returns (run: seq<Action>)
    requires c !in s.calls && t in s.handed && Accepts(cfg.Refresh(), s.bl, t, s.now, s.now) && j.New(s)
    ensures Legal(cfg, s, run) && Exec(cfg, s, run).parents == s.parents + [t, t]
  {
    var wait := [Tick(t.exp * SECOND + 1 - s.now)];
    var first, second := TradeIn(c, t, s.now, j.a0, j.r0), TradeIn(c, t, s.now, j.a1, j.r1);
    TradeInWorks(cfg, s, c, t, s.now, j.a0, j.r0);
    var mid := Exec(cfg, s, first);
    var late := Apply(cfg, mid, wait[0]);
    assert Legal(cfg, mid, wait) && Exec(cfg, mid, wait) == late;
    TradeInWorks(cfg, late, c, t, s.now, j.a1, j.r1);
    RunsCompose(cfg, s, first, wait);
    RunsCompose(cfg, s, first + wait, second);
    run := first + wait + second;
  }
}
