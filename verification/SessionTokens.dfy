/** JWTs as records, the self-pruning blacklist and the handlers that use them.
    Clock readings are nanoseconds; `exp` is in whole seconds, as in section
    4.1.4 of RFC 7519. */
module SessionTokens {
  import opened Clock
  import opened Wrappers

  /** The audience claim, section 4.1.3 of RFC 7519. */
  datatype Kind = Access | Refresh

  datatype Token = Token(kind: Kind, sub: int, jti: string, exp: int)

  /** What a client sends: a token signed by this server, or anything else. */
  datatype Raw = Signed(token: Token) | Unsigned

  datatype TokenError = TokenInvalid | TokenExpired

  datatype Issuer = Issuer(kind: Kind, ttl: int)

  function Issue(i: Issuer, sub: int, jti: string, now: int): (t: Token)
    ensures t.kind == i.kind && t.sub == sub && t.jti == jti && t.exp * SECOND <= now + i.ttl < (t.exp + 1) * SECOND
  {
    Token(i.kind, sub, jti, (now + i.ttl) / SECOND)
  }

  function Parse(i: Issuer, raw: Raw, now: int): (r: Result<int, TokenError>)
    ensures r.Ok? <==> RawClaims(i, raw, now).Ok?
    ensures r.Ok? ==> r.value == RawClaims(i, raw, now).value.sub
    ensures r == Err(TokenExpired) <==> raw.Signed? && now >= raw.token.exp * SECOND
  {
    match raw
    case Unsigned => Err(TokenInvalid)
    case Signed(t) =>
      if !(now < t.exp * SECOND) then Err(TokenExpired)
      else if t.kind != i.kind then Err(TokenInvalid)
      else Ok(t.sub)
  }

  /** The same checks again, for the jti and the expiry. */
  function RawClaims(i: Issuer, raw: Raw, now: int): (r: Result<Token, TokenError>)
    ensures r.Ok? ==> raw == Signed(r.value) && r.value.kind == i.kind && now < r.value.exp * SECOND
    ensures r.Err? ==> r.error == TokenInvalid
    ensures r.Err? && raw.Signed? ==> raw.token.kind != i.kind || now >= raw.token.exp * SECOND
  {
    match raw
    case Unsigned => Err(TokenInvalid)
    case Signed(t) =>
      if now < t.exp * SECOND && t.kind == i.kind then Ok(t) else Err(TokenInvalid)
  }

  // ----- the blacklist -----

  function Revoked(bl: map<string, int>, jti: string, exp: int): map<string, int> {
    if jti == "" then bl else bl[jti := exp]
  }

  predicate IsRevokedAt(bl: map<string, int>, jti: string, now: int) {
    jti != "" && jti in bl && !(now > bl[jti])
  }

  /** What asking about `jti` leaves of the blacklist. */
  function Asked(bl: map<string, int>, jti: string, now: int): map<string, int> {
    if jti != "" && jti in bl && now > bl[jti] then bl - {jti} else bl
  }

  class Blacklist {
    var entries: map<string, int>

    constructor ()
      ensures entries == map[]
    {
      entries := map[];
    }

    method Revoke(jti: string, expiresAt: int)
      modifies this
      ensures entries == Revoked(old(entries), jti, expiresAt)
      ensures entries == if jti == "" then old(entries) else old(entries)[jti := expiresAt]
    {
      if jti == "" {
        return;
      }
      entries := entries[jti := expiresAt];
    }

    method IsRevoked(jti: string, now: int) returns (r: bool)
      modifies this
      ensures r == IsRevokedAt(old(entries), jti, now) && entries == Asked(old(entries), jti, now)
      // the entry counts up to and including its expiry, and is dropped after it
      ensures r <==> jti != "" && jti in old(entries) && now <= old(entries)[jti]
      ensures entries == if r || jti == "" then old(entries) else old(entries) - {jti}
    {
      if jti == "" || jti !in entries {
        return false;
      }
      if now > entries[jti] {
        entries := entries - {jti};
        return false;
      }
      r := true;
    }
  }

  // ----- accepting a bearer token -----

  /** RequireAuth and Refresh accept a token whose claims were read at `parsed`
      and whose jti was looked up at `asked`. */
  predicate Accepts(i: Issuer, bl: map<string, int>, t: Token, parsed: int, asked: int) {
    t.kind == i.kind && parsed < t.exp * SECOND && !IsRevokedAt(bl, t.jti, asked)
  }

  /** The blacklist remembers that `t` was revoked, or `t` had expired by `now`. */
  ghost predicate Remembers(bl: map<string, int>, t: Token, now: int) {
    if t.jti in bl then bl[t.jti] == t.exp * SECOND else now > t.exp * SECOND
  }

  /** Forgetting a revocation after `exp` never revives the token, except for a
      request whose two clock readings straddle `exp`. */
  lemma RevokedAcceptedIffStraddling(i: Issuer, bl: map<string, int>, t: Token, now: int, parsed: int, asked: int)
    requires t.jti != "" && t.kind == i.kind && parsed <= asked && now <= asked && Remembers(bl, t, now)
    ensures Accepts(i, bl, t, parsed, asked) <==> parsed < t.exp * SECOND < asked
  {}

  // ----- the handlers, one request at a time -----

  /** The middleware: the subject, if the bearer token is accepted. Without a
      blacklist nothing counts as revoked. */
  method RequireAuth(i: Issuer, bl: Blacklist?, raw: Raw, parsed: int, reread: int, asked: int)
    returns (r: Option<int>)
    requires parsed <= reread <= asked
    modifies bl
    ensures r.Some? <==>
      raw.Signed? && Accepts(i, if bl == null then map[] else old(bl.entries), raw.token, reread, asked)
    ensures r.Some? ==> r.value == raw.token.sub && raw.token.kind == i.kind && reread < raw.token.exp * SECOND
    ensures bl != null ==>
      (bl.entries == old(bl.entries) || (raw.Signed? && bl.entries == Asked(old(bl.entries), raw.token.jti, asked)))
  {
    var claims := Parse(i, raw, parsed);
    if claims.Err? {
      return None;
    }
    var t := RawClaims(i, raw, reread);
    if t.Err? {
      return None;
    }
    if bl != null {
      var revoked := bl.IsRevoked(t.value.jti, asked);
      if revoked {
        return None;
      }
    }
    r := Some(claims.value);
  }

  class AuthHandler {
    const access: Issuer
    const refresh: Issuer
    const blacklist: Blacklist

    constructor (accessTTL: int, refreshTTL: int, blacklist: Blacklist)
      ensures access == Issuer(Access, accessTTL) && refresh == Issuer(Refresh, refreshTTL)
      ensures this.blacklist == blacklist
    {
      access, refresh := Issuer(Access, accessTTL), Issuer(Refresh, refreshTTL);
      this.blacklist := blacklist;
    }

    method Logout(raw: Raw, reread: int) returns (ok: bool)
      modifies blacklist
      ensures ok <==> RawClaims(access, raw, reread).Ok?
      ensures blacklist.entries == if ok
        then Revoked(old(blacklist.entries), raw.token.jti, raw.token.exp * SECOND)
        else old(blacklist.entries)
    {
      var t := RawClaims(access, raw, reread);
      if t.Err? {
        return false;
      }
      blacklist.Revoke(t.value.jti, t.value.exp * SECOND);
      ok := true;
    }

    /** A refresh that no other request interrupts. The token is revoked before
        the new pair is issued, whether or not the user still exists. */
    method RefreshTokens(raw: Raw, parsed: int, reread: int, asked: int, issued: int,
                         accessJTI: string, refreshJTI: string, userExists: bool)
      returns (r: Option<(Token, Token)>)
      requires parsed <= reread <= asked <= issued
      modifies blacklist
      ensures r.Some? <==>
        userExists && raw.Signed? && Accepts(refresh, old(blacklist.entries), raw.token, reread, asked)
      ensures r.Some? ==> r.value == (Issue(access, raw.token.sub, accessJTI, issued),
                                      Issue(refresh, raw.token.sub, refreshJTI, issued))
      ensures var accepted := raw.Signed? && Accepts(refresh, old(blacklist.entries), raw.token, reread, asked);
        if accepted
        then blacklist.entries == Revoked(Asked(old(blacklist.entries), raw.token.jti, asked),
                                          raw.token.jti, raw.token.exp * SECOND)
             && (raw.token.jti != "" ==>
                 forall p, a :: reread <= p <= a && !(p < raw.token.exp * SECOND < a) ==>
                   !Accepts(refresh, blacklist.entries, raw.token, p, a))
        else blacklist.entries == old(blacklist.entries)
             || (raw.Signed? && blacklist.entries == Asked(old(blacklist.entries), raw.token.jti, asked))
    {
      var claims := Parse(refresh, raw, parsed);
      if claims.Err? {
        return None;
      }
      var t := RawClaims(refresh, raw, reread);
      if t.Err? {
        return None;
      }
      var revoked := blacklist.IsRevoked(t.value.jti, asked);
      if revoked {
        return None;
      }
      blacklist.Revoke(t.value.jti, t.value.exp * SECOND);
      var newAccess := Issue(access, claims.value, accessJTI, issued);
      var newRefresh := Issue(refresh, claims.value, refreshJTI, issued);
      if !userExists {
        return None;
      }
      r := Some((newAccess, newRefresh));
    }
  }
}
