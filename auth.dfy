/**
 * Session tokens (auth.py): the two token builders, the access-token check run
 * before every protected handler, and the refresh endpoint's token exchange.
 *
 * Exceptions become the Raise variant of Outcome. The signing secret and the
 * current time (whole seconds) are parameters: the first is read from the
 * environment at start-up, the second from the wall clock.
 */
module Auth {
  import opened Jwt
  import Roles
  import opened Wrappers

  const Algorithm: string := "HS256"
  const AccessTokenExpireMinutes: nat := 15
  const RefreshTokenExpireDays: nat := 30

  /** Lifetimes in seconds. */
  const AccessLifetime: nat := AccessTokenExpireMinutes * 60
  const RefreshLifetime: nat := RefreshTokenExpireDays * 24 * 60 * 60

  /** The exceptions that leave these functions. */
  datatype Raised =
    | HttpException(status: int, detail: string)
    | KeyError(key: string)

  /** A return value or an exception. */
  datatype Outcome<T> = Return(value: T) | Raise(exc: Raised)

  /** The (restaurant id, role) pair handed to protected handlers. */
  datatype Session = Session(restaurantId: Value, role: Value)

  /** The HTTP 403 every refusal raises, with its detail. */
  function Forbidden<T>(detail: string): (r: Outcome<T>) {
    Raise(HttpException(403, detail))
  }

  /** A copy of `data` whose "exp" claim is `exp`, whether or not `data` had one. */
  function WithExpiry(data: Payload, exp: int): (r: Payload)
    ensures "exp" in r && r["exp"] == Int(exp)
    ensures forall k :: k != "exp" ==> (k in r <==> k in data)
    ensures forall k :: k in data && k != "exp" ==> r[k] == data[k]
  {
    data["exp" := Int(exp)]
  }

  /**
   * `create_access_token(data)` at time `now`: at issue it decodes to the
   * caller's claims with "exp" 15 minutes on, and at that second it is expired.
   */
  function CreateAccessToken(data: Payload, secret: string, now: int): (tok: Token)
    ensures Decode(tok, secret, Algorithm, now) == Ok(WithExpiry(data, now + AccessLifetime))
    ensures Decode(tok, secret, Algorithm, now + AccessLifetime) == Expired
  {
    Encode(WithExpiry(data, now + AccessLifetime), secret, Algorithm)
  }

  /**
   * `create_refresh_token(data)` at time `now`: at issue it decodes to the
   * caller's claims with "exp" 30 days on, and at that second it is expired.
   */
  function CreateRefreshToken(data: Payload, secret: string, now: int): (tok: Token)
    ensures Decode(tok, secret, Algorithm, now) == Ok(WithExpiry(data, now + RefreshLifetime))
    ensures Decode(tok, secret, Algorithm, now + RefreshLifetime) == Expired
  {
    Encode(WithExpiry(data, now + RefreshLifetime), secret, Algorithm)
  }

  /**
   * An access token issued at `now` decodes to the caller's claims with "exp"
   * set to 15 minutes later, until that moment; from then on it is expired.
   */
  lemma AccessTokenClaims(data: Payload, secret: string, now: int, t: int)
    ensures Decode(CreateAccessToken(data, secret, now), secret, Algorithm, t)
            == if t < now + 15 * 60 then Ok(WithExpiry(data, now + 15 * 60)) else Expired
  {
    DecodeEncode(WithExpiry(data, now + AccessLifetime), secret, Algorithm, now + AccessLifetime, t);
  }

  /** A refresh token issued at `now` is good for 30 days, with the caller's other claims. */
  lemma RefreshTokenClaims(data: Payload, secret: string, now: int, t: int)
    ensures Decode(CreateRefreshToken(data, secret, now), secret, Algorithm, t)
            == if t < now + 30 * 86400 then Ok(WithExpiry(data, now + 30 * 86400)) else Expired
  {
    DecodeEncode(WithExpiry(data, now + RefreshLifetime), secret, Algorithm, now + RefreshLifetime, t);
  }

  /**
   * Issued together, the refresh token outlives the access token: at the
   * second the access token expires the refresh token still decodes.
   */
  lemma RefreshOutlivesAccess(data: Payload, secret: string, now: int)
    ensures AccessLifetime < RefreshLifetime
    ensures Decode(CreateAccessToken(data, secret, now), secret, Algorithm, now + AccessLifetime) == Expired
    ensures Decode(CreateRefreshToken(data, secret, now), secret, Algorithm, now + AccessLifetime).Ok?
  {
    AccessTokenClaims(data, secret, now, now + AccessLifetime);
    RefreshTokenClaims(data, secret, now, now + AccessLifetime);
  }

  /**
   * `verify_token(request)`, given the request's cookies. Whatever happens,
   * it either returns a pair with both parts present or raises 403.
   */
  function VerifyToken(cookies: map<string, Token>, secret: string, now: int): (r: Outcome<Session>)
    ensures r.Raise? ==> r.exc.HttpException? && r.exc.status == 403
    ensures r.Return? ==> r.value.restaurantId != Null && r.value.role != Null
  {
    if "access_token" !in cookies || cookies["access_token"].IsEmpty() then
      Forbidden("Token not found")
    else
      match Decode(cookies["access_token"], secret, Algorithm, now)
      case Ok(payload) =>
        var restaurantId, role := Get(payload, "sub"), Get(payload, "role");
        if restaurantId == Null || role == Null then Forbidden("Invalid token")
        else Return(Session(restaurantId, role))
      case _ => Forbidden("Could not validate credentials")
  }

  /** Without an access-token cookie, or with an empty one, the token is reported missing. */
  lemma VerifyWithoutCookie(cookies: map<string, Token>, secret: string, now: int)
    requires "access_token" !in cookies || cookies["access_token"].IsEmpty()
    ensures VerifyToken(cookies, secret, now) == Raise(HttpException(403, "Token not found"))
  {
  }

  /** Every decode failure, expiry included, reads "Could not validate credentials". */
  lemma VerifyDecodeFailure(cookies: map<string, Token>, secret: string, now: int)
    requires "access_token" in cookies && !cookies["access_token"].IsEmpty()
    requires !Decode(cookies["access_token"], secret, Algorithm, now).Ok?
    ensures VerifyToken(cookies, secret, now) == Raise(HttpException(403, "Could not validate credentials"))
  {
  }

  /**
   * After a successful decode the session is returned exactly when both "sub"
   * and "role" are present (and not null); otherwise the error is "Invalid
   * token", not rewritten by the handler for decode failures.
   */
  lemma VerifyDecodedClaims(cookies: map<string, Token>, secret: string, now: int, p: Payload)
    requires "access_token" in cookies && !cookies["access_token"].IsEmpty()
    requires Decode(cookies["access_token"], secret, Algorithm, now) == Ok(p)
    ensures VerifyToken(cookies, secret, now).Return?
            <==> "sub" in p && p["sub"] != Null && "role" in p && p["role"] != Null
    ensures VerifyToken(cookies, secret, now)
            == if Get(p, "sub") != Null && Get(p, "role") != Null
               then Return(Session(p["sub"], p["role"]))
               else Raise(HttpException(403, "Invalid token"))
  {
  }

  /**
   * The role is checked for presence only: a current access token whose role
   * string names no Role member is accepted, and the role is handed on as is.
   */
  lemma VerifyAcceptsUnknownRole(restaurantId: string, role: string, secret: string, issued: int, now: int)
    requires Roles.Parse(role).None?
    requires issued <= now < issued + AccessLifetime
    ensures VerifyToken(map["access_token" := CreateAccessToken(map["sub" := Str(restaurantId), "role" := Str(role)], secret, issued)], secret, now)
            == Return(Session(Str(restaurantId), Str(role)))
  {
    VerifyIssuedAccessToken(map["sub" := Str(restaurantId), "role" := Str(role)], secret, issued, now);
  }

  /**
   * An access token issued for a present "sub" and "role" verifies to exactly
   * those two values for 15 minutes, and is refused from then on.
   */
  lemma VerifyIssuedAccessToken(data: Payload, secret: string, issued: int, now: int)
    requires Get(data, "sub") != Null && Get(data, "role") != Null
    ensures VerifyToken(map["access_token" := CreateAccessToken(data, secret, issued)], secret, now)
            == if now < issued + AccessLifetime then Return(Session(data["sub"], data["role"]))
               else Raise(HttpException(403, "Could not validate credentials"))
  {
    AccessTokenClaims(data, secret, issued, now);
  }

  /** `refresh_token(refresh_token_str)`: a new access token, or the exception it raises. */
  function RefreshToken(refreshTokenStr: Option<Token>, secret: string, now: int): (r: Outcome<Token>)
    ensures r.Raise? ==> (r.exc.HttpException? && r.exc.status == 403) || r.exc == KeyError("sub")
  {
    if refreshTokenStr.None? || refreshTokenStr.value.IsEmpty() then
      Forbidden("Refresh token not found")
    else
      match Decode(refreshTokenStr.value, secret, Algorithm, now)
      case Ok(payload) =>
        if "sub" !in payload then Raise(KeyError("sub"))
        else Return(CreateAccessToken(map["sub" := payload["sub"]], secret, now))
      case Expired => Forbidden("Refresh token expired")
      case Invalid => Forbidden("Invalid refresh token")
  }

  /** Without a refresh token, or with an empty one, nothing is decoded. */
  lemma RefreshWithoutToken(refreshTokenStr: Option<Token>, secret: string, now: int)
    requires refreshTokenStr.None? || refreshTokenStr.value.IsEmpty()
    ensures RefreshToken(refreshTokenStr, secret, now) == Raise(HttpException(403, "Refresh token not found"))
  {
  }

  /**
   * A refresh token past its "exp" is reported as expired, never as invalid;
   * every other decode failure is reported as invalid.
   */
  lemma RefreshDecodeFailure(t: Token, secret: string, now: int)
    requires !t.IsEmpty()
    requires !Decode(t, secret, Algorithm, now).Ok?
    ensures RefreshToken(Some(t), secret, now)
            == if Decode(t, secret, Algorithm, now) == Expired
               then Raise(HttpException(403, "Refresh token expired"))
               else Raise(HttpException(403, "Invalid refresh token"))
  {
  }

  /**
   * On success the new access token's claims are exactly "sub" and a fresh
   * 15-minute "exp": "role" and every other claim of the refresh token are dropped.
   */
  lemma RefreshIssuesAccessToken(t: Token, secret: string, now: int, later: int, p: Payload)
    requires !t.IsEmpty() && Decode(t, secret, Algorithm, now) == Ok(p)
    requires "sub" in p
    requires now <= later < now + AccessLifetime
    ensures RefreshToken(Some(t), secret, now).Return?
    ensures Decode(RefreshToken(Some(t), secret, now).value, secret, Algorithm, later)
            == Ok(map["sub" := p["sub"], "exp" := Int(now + AccessLifetime)])
  {
    AccessTokenClaims(map["sub" := p["sub"]], secret, now, later);
  }

  /** Every decodable refresh token without "sub" escapes as a KeyError instead of a 403. */
  lemma RefreshMissingSubEscapes(t: Token, secret: string, now: int, p: Payload)
    requires !t.IsEmpty() && Decode(t, secret, Algorithm, now) == Ok(p)
    requires "sub" !in p
    ensures RefreshToken(Some(t), secret, now) == Raise(KeyError("sub"))
  {
  }

  /**
   * The access token the refresh endpoint returns is refused by VerifyToken:
   * "Invalid token" while it is current, since it carries no "role", and
   * "Could not validate credentials" once expired. It never yields a session.
   */
  lemma RefreshedTokenFailsVerify(t: Token, secret: string, now: int, later: int)
    requires RefreshToken(Some(t), secret, now).Return?
    ensures VerifyToken(map["access_token" := RefreshToken(Some(t), secret, now).value], secret, later)
            == if later < now + AccessLifetime
               then Raise(HttpException(403, "Invalid token"))
               else Raise(HttpException(403, "Could not validate credentials"))
  {
    var p := Decode(t, secret, Algorithm, now).payload;
    AccessTokenClaims(map["sub" := p["sub"]], secret, now, later);
  }

  /**
   * The login flow (two tokens for one principal) followed by a refresh once
   * the access token has expired: the refresh succeeds, but its access token
   * is refused by VerifyToken with "Invalid token".
   */
  lemma LoginRefreshVerify(restaurantId: string, role: Roles.Role, secret: string, issued: int, now: int)
    requires issued + AccessLifetime <= now < issued + RefreshLifetime
    ensures var data := map["sub" := Str(restaurantId), "role" := Str(role.Name())];
            && VerifyToken(map["access_token" := CreateAccessToken(data, secret, issued)], secret, now)
               == Raise(HttpException(403, "Could not validate credentials"))
            && RefreshToken(Some(CreateRefreshToken(data, secret, issued)), secret, now).Return?
            && VerifyToken(map["access_token" := RefreshToken(Some(CreateRefreshToken(data, secret, issued)), secret, now).value], secret, now)
               == Raise(HttpException(403, "Invalid token"))
  {
    var data := map["sub" := Str(restaurantId), "role" := Str(role.Name())];
    VerifyIssuedAccessToken(data, secret, issued, now);
    RefreshTokenClaims(data, secret, issued, now);
    RefreshedTokenFailsVerify(CreateRefreshToken(data, secret, issued), secret, now, now);
  }

  /**
   * The refresh exchange as the rest of the file evidently intends it: the
   * new access token carries the refresh token's "sub" and "role", and a
   * token lacking either is refused with 403 "Invalid refresh token".
   */
  function RefreshTokenKeepingRole(refreshTokenStr: Option<Token>, secret: string, now: int): (r: Outcome<Token>)
    ensures r.Raise? ==> r.exc.HttpException? && r.exc.status == 403
  {
    if refreshTokenStr.None? || refreshTokenStr.value.IsEmpty() then
      Forbidden("Refresh token not found")
    else
      match Decode(refreshTokenStr.value, secret, Algorithm, now)
      case Ok(payload) =>
        var restaurantId, role := Get(payload, "sub"), Get(payload, "role");
        if restaurantId == Null || role == Null then Forbidden("Invalid refresh token")
        else Return(CreateAccessToken(map["sub" := restaurantId, "role" := role], secret, now))
      case Expired => Forbidden("Refresh token expired")
      case Invalid => Forbidden("Invalid refresh token")
  }

  /**
   * With the corrected exchange, a refresh token that decodes hands back an
   * access token that VerifyToken accepts for 15 minutes, yielding the refresh
   * token's own (restaurant id, role).
   */
  lemma RefreshKeepingRoleVerifies(t: Token, secret: string, now: int, later: int, p: Payload)
    requires !t.IsEmpty() && Decode(t, secret, Algorithm, now) == Ok(p)
    requires Get(p, "sub") != Null && Get(p, "role") != Null
    requires now <= later < now + AccessLifetime
    ensures RefreshTokenKeepingRole(Some(t), secret, now).Return?
    ensures VerifyToken(map["access_token" := RefreshTokenKeepingRole(Some(t), secret, now).value], secret, later)
            == Return(Session(p["sub"], p["role"]))
  {
    VerifyIssuedAccessToken(map["sub" := p["sub"], "role" := p["role"]], secret, now, later);
  }
}
