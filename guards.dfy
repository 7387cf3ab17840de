/** The request guards every protected route depends on: the bearer-token
    check of `TokenBearer` and its access/refresh variants, `get_current_user`,
    `RoleChecker`, and the signup-form cleaner `sanitize_input`. */
module Guards {
  import opened Results
  import opened Json
  import opened Ids
  import opened Models
  import opened Text
  import opened Schemas
  import SessionTokens
  import Blocklist

  datatype TokenKind = Access | Refresh

  const NO_CREDENTIALS := "No credentials provided"
  const TOKEN_INVALID := "THIS TOKEN IS INVALID OR EXPIRED"
  const TOKEN_REVOKED := "THIS TOKEN IS INVALID OR HAS BEEN REVOKED"
  const ACCESS_REQUIRED := "PROVIDE A VALID ACCESS TOKEN"
  const REFRESH_REQUIRED := "PROVIDE A VALID REFRESH TOKEN"
  const BAD_TOKEN_FORMAT := "Invalid token format"
  const EMAIL_MISSING := "Email missing in token"
  const NOT_VERIFIED := "Account not verified"
  const NOT_PERMITTED := "YOU ARE NOT PERMITTED TO PERFORM THIS ACTION"

  // ------------------------------------------------------------ TokenBearer

  /** `token_valid(token)`: a second `decode_token` of the same credential,
      any exception read as False, a returned dict as True. */
  predicate TokenValid(cfg: SessionTokens.Config, t: SessionTokens.Token, now: int) {
    SessionTokens.DecodeToken(cfg, t, now).Ok?
  }

  /** The key redis-py sends for `token_data['jti']`: a string as itself, an
      int as its decimal text; any other value raises `DataError`. */
  function RedisKey(jti: Json): (r: Result<string>)
    ensures r.Ok? <==> jti.JStr? || jti.JInt?
    ensures jti.JStr? ==> r == Ok(jti.s)
  {
    match jti
    case JStr(s) => Ok(s)
    case JInt(i) => Ok(IntToString(i))
    case _ => Err(Crash("DataError: invalid input type for a Redis key"))
  }

  /** Whether a decoded payload carries a truthy `refresh` (missing reads as False). */
  predicate RefreshFlag(payload: Object) {
    Truthy(Get(payload, "refresh", JBool(false)))
  }

  /** `verify_token_data` of the access and refresh bearers. */
  function KindCheck(kind: TokenKind, payload: Object): (r: Option<Failure>)
    ensures r.None? <==> payload == map[] || (kind == Access <==> !RefreshFlag(payload))
  {
    match kind
    case Access =>
      if payload != map[] && RefreshFlag(payload) then Some(Fail(FORBIDDEN, ACCESS_REQUIRED)) else None
    case Refresh =>
      if payload != map[] && !RefreshFlag(payload) then Some(Fail(FORBIDDEN, REFRESH_REQUIRED)) else None
  }

  /** `TokenBearer.__call__` at time `now`, against the revocation registry
      `bl`: decode, `token_valid`, the blocklist lookup of the jti, then the
      kind check; the payload comes back unchanged. */
  function Authenticate(kind: TokenKind, cfg: SessionTokens.Config, creds: Option<SessionTokens.Token>,
                        now: int, bl: Blocklist.TokenBlocklist): (r: Result<Object>)
    reads bl
    ensures creds.None? ==> r == Err(Fail(UNAUTHORIZED, NO_CREDENTIALS))
    ensures creds.Some? && SessionTokens.DecodeToken(cfg, creds.value, now).Err? ==>
              r == SessionTokens.DecodeToken(cfg, creds.value, now)
    ensures r.Ok? ==> creds.Some? && SessionTokens.DecodeToken(cfg, creds.value, now) == Ok(r.value)
    ensures r.Ok? ==> "jti" in r.value && RedisKey(r.value["jti"]).Ok?
                      && !bl.TokenInBlocklist(RedisKey(r.value["jti"]).value)
    ensures r.Ok? ==> (kind == Access <==> !RefreshFlag(r.value))
    ensures r != Err(Fail(FORBIDDEN, TOKEN_INVALID))
    ensures r.Err? ==> r.failure.Status() in {UNAUTHORIZED, FORBIDDEN, INTERNAL_SERVER_ERROR}
  {
    if creds.None? then Err(Fail(UNAUTHORIZED, NO_CREDENTIALS))
    else
      var t := creds.value;
      var payload :- SessionTokens.DecodeToken(cfg, t, now);
      if !TokenValid(cfg, t, now) then Err(Fail(FORBIDDEN, TOKEN_INVALID))
      else if "jti" !in payload then Err(Crash("KeyError: 'jti'"))
      else
        var key :- RedisKey(payload["jti"]);
        if bl.TokenInBlocklist(key) then Err(Fail(FORBIDDEN, TOKEN_REVOKED))
        else
          var rejected := KindCheck(kind, payload);
          if rejected.Some? then Err(rejected.value) else Ok(payload)
  }

  /** No credential passes both the access and the refresh bearer: a payload
      that gets as far as the kind check has a jti, so it is never empty. */
  lemma AccessAndRefreshExclusive(cfg: SessionTokens.Config, creds: Option<SessionTokens.Token>,
                                  now: int, bl: Blocklist.TokenBlocklist)
    ensures !(Authenticate(Access, cfg, creds, now, bl).Ok? && Authenticate(Refresh, cfg, creds, now, bl).Ok?)
  {
  }

  /** A revoked jti is refused with 403, whichever bearer checks it. */
  lemma RevokedTokenRefused(kind: TokenKind, cfg: SessionTokens.Config, claims: Object, jti: string,
                            now: int, bl: Blocklist.TokenBlocklist)
    requires claims["jti" := JStr(jti)] == claims
    requires SessionTokens.DecodeToken(cfg, SessionTokens.Encode(cfg, claims), now).Ok?
    requires bl.TokenInBlocklist(jti)
    ensures Authenticate(kind, cfg, Some(SessionTokens.Encode(cfg, claims)), now, bl)
            == Err(Fail(FORBIDDEN, TOKEN_REVOKED))
  {
    assert "jti" in claims && claims["jti"] == JStr(jti) by {
      assert claims["jti" := JStr(jti)]["jti"] == JStr(jti);
    }
  }

  /** A live, unrevoked token issued with `refresh = False` passes the access
      bearer with its claims intact and is refused by the refresh bearer; with
      `refresh = True` it is the other way round. */
  lemma IssuedTokenKind(cfg: SessionTokens.Config, claims: Object, refresh: bool, jti: string,
                        now: int, bl: Blocklist.TokenBlocklist)
    requires "exp" in claims && claims["exp"].JInt? && now < claims["exp"].i
    requires "jti" in claims && claims["jti"] == JStr(jti) && !bl.TokenInBlocklist(jti)
    requires "refresh" in claims && claims["refresh"] == JBool(refresh)
    ensures Authenticate(if refresh then Refresh else Access, cfg, Some(SessionTokens.Encode(cfg, claims)), now, bl)
            == Ok(claims)
    ensures Authenticate(if refresh then Access else Refresh, cfg, Some(SessionTokens.Encode(cfg, claims)), now, bl)
            == Err(Fail(FORBIDDEN, if refresh then ACCESS_REQUIRED else REFRESH_REQUIRED))
  {
    SessionTokens.DecodeEncoded(cfg, claims, now);
  }

  // ------------------------------------------------------- get_current_user

  /** `get_current_user` given the access bearer's payload: the `user` claim
      must be a truthy dict whose `email` is truthy; the user is then looked
      up by that address and may be missing. */
  function CurrentUserFromClaims(claims: Object, users: seq<User>): (r: Result<Option<User>>)
    ensures !Truthy(Lookup(claims, "user")) ==> r == Err(Fail(UNAUTHORIZED, BAD_TOKEN_FORMAT))
    ensures Truthy(Lookup(claims, "user")) && !Lookup(claims, "user").JObj? ==> r.Err? && r.failure.Crash?
    ensures Lookup(claims, "user").JObj? && Truthy(Lookup(claims, "user")) ==>
              var email := Lookup(Lookup(claims, "user").fields, "email");
              && (!Truthy(email) ==> r == Err(Fail(UNAUTHORIZED, EMAIL_MISSING)))
              && (Truthy(email) && !email.JStr? ==> r.Err? && r.failure.Crash?)
              && (email.JStr? && email.s != "" ==> r == Ok(UserByEmail(users, email.s)))
    ensures r.Ok? ==> Lookup(claims, "user").JObj? && Lookup(Lookup(claims, "user").fields, "email").JStr?
    ensures r.Ok? ==> var email := Lookup(Lookup(claims, "user").fields, "email").s;
                      email != "" && r.value == UserByEmail(users, email)
    ensures r.Ok? && r.value.Some? ==> r.value.value in users
    ensures r.Err? ==> r.failure.Status() in {UNAUTHORIZED, INTERNAL_SERVER_ERROR}
  {
    var info := Lookup(claims, "user");
    if !Truthy(info) then Err(Fail(UNAUTHORIZED, BAD_TOKEN_FORMAT))
    else if !info.JObj? then Err(Crash("AttributeError: object has no attribute 'get'"))
    else
      var email := Lookup(info.fields, "email");
      if !Truthy(email) then Err(Fail(UNAUTHORIZED, EMAIL_MISSING))
      else if !email.JStr? then Err(Crash("DataError: the email parameter is not a string"))
      else Ok(UserByEmail(users, email.s))
  }

  /** The `get_current_user` dependency: the access bearer, then the lookup. */
  function CurrentUser(cfg: SessionTokens.Config, creds: Option<SessionTokens.Token>, now: int,
                       bl: Blocklist.TokenBlocklist, users: seq<User>): (r: Result<Option<User>>)
    reads bl
    ensures Authenticate(Access, cfg, creds, now, bl).Err? ==> r == Authenticate(Access, cfg, creds, now, bl).PropagateFailure()
    ensures Authenticate(Access, cfg, creds, now, bl).Ok? ==>
              r == CurrentUserFromClaims(Authenticate(Access, cfg, creds, now, bl).value, users)
  {
    var claims :- Authenticate(Access, cfg, creds, now, bl);
    CurrentUserFromClaims(claims, users)
  }

  /** The user a request is served for always holds exactly the address its access token names. */
  lemma CurrentUserMatchesToken(cfg: SessionTokens.Config, creds: Option<SessionTokens.Token>, now: int,
                                bl: Blocklist.TokenBlocklist, users: seq<User>)
    requires CurrentUser(cfg, creds, now, bl, users).Ok? && CurrentUser(cfg, creds, now, bl, users).value.Some?
    ensures var claims := Authenticate(Access, cfg, creds, now, bl).value;
            JStr(CurrentUser(cfg, creds, now, bl, users).value.value.email)
            == Lookup(Lookup(claims, "user").fields, "email")
  {
    var claims := Authenticate(Access, cfg, creds, now, bl).value;
    var email := Lookup(Lookup(claims, "user").fields, "email").s;
    var u := CurrentUser(cfg, creds, now, bl, users).value.value;
    assert UserByEmail(users, email) == Some(u);
  }

  // ------------------------------------------------------------ RoleChecker

  /** `RoleChecker(allowed)(current_user)`: a missing user has no
      `is_verified` attribute; an unverified account is refused before the
      role is looked at. */
  function RoleCheck(allowed: seq<string>, current: Option<User>): (r: Result<bool>)
    ensures r.Ok? <==> current.Some? && current.value.isVerified && current.value.role in allowed
    ensures r.Ok? ==> r.value
    ensures current.Some? && !current.value.isVerified ==> r == Err(Fail(FORBIDDEN, NOT_VERIFIED))
    ensures current.Some? && current.value.isVerified && current.value.role !in allowed ==>
              r == Err(Fail(FORBIDDEN, NOT_PERMITTED))
    ensures current.None? ==> r.Err? && r.failure.Crash?
  {
    if current.None? then Err(Crash("AttributeError: 'NoneType' object has no attribute 'is_verified'"))
    else if !current.value.isVerified then Err(Fail(FORBIDDEN, NOT_VERIFIED))
    else if current.value.role in allowed then Ok(true)
    else Err(Fail(FORBIDDEN, NOT_PERMITTED))
  }

  /** Widening the allowed roles never refuses a user the narrower list let in. */
  lemma RoleCheckMonotone(narrow: seq<string>, wide: seq<string>, current: Option<User>)
    requires forall role :: role in narrow ==> role in wide
    requires RoleCheck(narrow, current).Ok?
    ensures RoleCheck(wide, current).Ok?
  {
  }

  // --------------------------------------------------------- sanitize_input

  /** `sanitize_input(user_data)`: escapes the username and normalises the
      address of the caller's form in place. */
  method SanitizeInput(form: UserCreateModel)
    modifies form
    ensures form.username == HtmlEscape(old(form.username))
    ensures form.email == NormalizeEmail(old(form.email))
    ensures form.password == old(form.password)
  {
    form.username := HtmlEscape(form.username);
    var email := form.email;
    form.email := NormalizeEmail(email);
  }

  /** What the cleaned form holds: an address already in normal form, and a
      username with no raw markup from which the original is recoverable. */
  lemma SanitizedFormProperties(username: string, email: string)
    ensures NormalizeEmail(NormalizeEmail(email)) == NormalizeEmail(email)
    ensures forall i :: 0 <= i < |HtmlEscape(username)| ==> !IsRawMarkup(HtmlEscape(username)[i])
    ensures HtmlUnescape(HtmlEscape(username)) == username
  {
    NormalizeEmailIdempotent(email);
    UnescapeEscape(username);
  }
}
