/** The handlers of the authentication router: signup, e-mail verification,
    login, token refresh, the current user, logout and the two steps of a
    password reset. Each takes the database session, the revocation
    registry, the identifier supply (standing for `uuid.uuid4()` and for
    bcrypt's random salt) and the current time as parameters. A request body
    that fails its schema is answered with 422 before the handler runs. */
module AuthRoutes {
  import opened Results
  import opened Json
  import opened Ids
  import opened Passwords
  import opened Models
  import opened Schemas
  import opened Database
  import opened Guards
  import SessionTokens
  import ActionTokens
  import Blocklist

  const EMAIL_TAKEN := "User with email already exists"
  const SIGNUP_DONE := "Account Created Successfully check email to verify account"
  const INVALID_LINK := "Invalid token"
  const USER_NOT_FOUND := "User not found"
  const VERIFIED_DONE := "Account Verified Successfully"
  const VERIFY_ERROR := "Error occured during verification "
  const BAD_LOGIN := "invalid username & password"
  const LOGIN_DONE := "Login successful"
  /** `timedelta(days=2)`, in seconds. */
  const REFRESH_TOKEN_EXPIRY := 172800
  const REFRESH_UNREACHABLE := "INVALID OR EXPIRED TOKEN"
  const LOGGED_OUT := "LOGGED OUT SUCCESSFULLY"
  const RESET_SENT := "Please check your email for instrauctions to reset your password"
  const PASSWORDS_DIFFER := "passwords don't match"
  const RESET_DONE := "Password update successfully"
  const RESET_ERROR := "Error occured during password reset "

  /** The roles of this router's `role_checker`. */
  const AUTH_ROLES := ["admin", "user"]

  datatype SignupReply = SignupReply(message: string, user: User, link: ActionTokens.UrlToken)
  datatype UserReply = UserReply(message: string, user: User)
  datatype LoginReply = LoginReply(message: string, accessToken: SessionTokens.Token,
                                   refreshCookie: SessionTokens.Token)

  /** The dict `{"email": email}` once `create_url_safe_token` has added its default `exp`. */
  function LinkData(email: string): Object {
    map["email" := JStr(email), "exp" := JInt(ActionTokens.URL_TOKEN_EXPIRY)]
  }

  /** The `user` claim of the access token issued at login. */
  function AccessUserClaim(u: User): Json {
    JObj(map["email" := JStr(u.email), "user_uid" := JStr(u.id), "role" := JStr(u.role)])
  }

  /** The `user` claim of the refresh token issued at login: no role. */
  function RefreshUserClaim(u: User): Json {
    JObj(map["email" := JStr(u.email), "user_uid" := JStr(u.id)])
  }

  /** Signs the action link for `email`, through the in-place `create_url_safe_token`. */
  method MakeLink(cfg: SessionTokens.Config, email: string, now: int) returns (link: ActionTokens.UrlToken)
    ensures link == ActionTokens.Dumps(cfg, LinkData(email), now)
  {
    var data := new ActionTokens.JsonDict(map["email" := JStr(email)]);
    link := ActionTokens.CreateUrlSafeToken(cfg, data, ActionTokens.URL_TOKEN_EXPIRY, now);
    assert data.items == LinkData(email);
  }

  /** A link signed for `email` opens, for a day, on data naming that address. */
  lemma LinkNamesEmail(cfg: SessionTokens.Config, email: string, issued: int, now: int)
    requires issued <= now <= issued + ActionTokens.URL_TOKEN_MAX_AGE
    ensures var data := ActionTokens.DecodeUrlSafeToken(cfg, ActionTokens.Dumps(cfg, LinkData(email), issued),
                                                         ActionTokens.URL_TOKEN_MAX_AGE, now);
            data.Some? && Lookup(data.value, "email") == JStr(email)
  {
    ActionTokens.UrlTokenRoundTrip(cfg, LinkData(email), issued, now);
  }

  /** Appending a user whose address no earlier row has makes it the one found by that address. */
  lemma AppendedUserFound(users: seq<User>, u: User)
    requires UserByEmail(users, u.email).None?
    ensures UserByEmail(users + [u], u.email) == Some(u)
  {
    assert u in users + [u];
  }

  // ------------------------------------------------------------------ signup

  /** POST /signup. */
  method CreateUserAccount(db: Session, ids: UuidSupply, cfg: SessionTokens.Config, now: int,
                           username: string, email: string, password: string)
    returns (r: Result<SignupReply>)
    requires Tracked(db, ids)
    modifies db, ids
    ensures Tracked(db, ids)
    ensures !SignupValid(username, password) ==> r == Err(VALIDATION_FAILED)
    ensures SignupValid(username, password) && old(UserByEmail(db.users, email)).Some? ==>
              r == Err(Fail(FORBIDDEN, EMAIL_TAKEN))
    ensures r.Err? ==> db.Snapshot() == old(db.Snapshot())
    ensures r.Ok? <==> SignupValid(username, password) && old(UserByEmail(db.users, email)).None?
    ensures r.Ok? ==> db.users == old(db.users) + [r.value.user]
                      && db.books == old(db.books) && db.reviews == old(db.reviews)
    ensures r.Ok? ==> var u := r.value.user;
                      && u.username == username && u.email == email
                      && u.role == DEFAULT_ROLE && !u.isVerified
                      && u.id !in old(AllIds(db.Snapshot()))
                      && (forall p :: VerifyPass(p, u.passwordHash) <==> p == password)
    ensures r.Ok? ==> UserByEmail(db.users, email) == Some(r.value.user)
    ensures r.Ok? ==> r.value.message == SIGNUP_DONE
                      && r.value.link == ActionTokens.Dumps(cfg, LinkData(email), now)
  {
    if !SignupValid(username, password) {
      return Err(VALIDATION_FAILED);
    }
    if UserByEmail(db.users, email).Some? {
      return Err(Fail(FORBIDDEN, EMAIL_TAKEN));
    }
    var salt := ids.Fresh();
    var id := ids.Fresh();
    var u := db.CreateUser(id, username, email, GeneratePassHash(password, salt), now);
    AppendedUserFound(old(db.users), u);
    var link := MakeLink(cfg, email, now);
    r := Ok(SignupReply(SIGNUP_DONE, u, link));
  }

  // ---------------------------------------------------- verify_user_account

  /** GET /verify/{token}. */
  method VerifyUserAccount(db: Session, cfg: SessionTokens.Config, now: int, token: ActionTokens.UrlToken)
    returns (r: Result<UserReply>)
    requires db.Valid()
    modifies db
    ensures db.Valid()
    ensures ActionTokens.DecodeUrlSafeToken(cfg, token, ActionTokens.URL_TOKEN_MAX_AGE, now).None? ==>
              r == Err(Fail(BAD_REQUEST, INVALID_LINK))
    ensures var data := ActionTokens.DecodeUrlSafeToken(cfg, token, ActionTokens.URL_TOKEN_MAX_AGE, now);
            data.Some? && !Truthy(Lookup(data.value, "email")) ==> r == Err(Fail(INTERNAL_SERVER_ERROR, VERIFY_ERROR))
    ensures var data := ActionTokens.DecodeUrlSafeToken(cfg, token, ActionTokens.URL_TOKEN_MAX_AGE, now);
            data.Some? && Truthy(Lookup(data.value, "email")) && !Lookup(data.value, "email").JStr? ==>
              r.Err? && r.failure.Crash?
    ensures var data := ActionTokens.DecodeUrlSafeToken(cfg, token, ActionTokens.URL_TOKEN_MAX_AGE, now);
            data.Some? && Lookup(data.value, "email").JStr? && Lookup(data.value, "email").s != "" ==>
              var e := Lookup(data.value, "email").s;
              && (old(UserByEmail(db.users, e)).None? ==> r == Err(Fail(NOT_FOUND, USER_NOT_FOUND)))
              && (old(UserByEmail(db.users, e)).Some? ==> r.Ok?)
    ensures r.Err? ==> db.Snapshot() == old(db.Snapshot())
    ensures r.Ok? ==> var data := ActionTokens.DecodeUrlSafeToken(cfg, token, ActionTokens.URL_TOKEN_MAX_AGE, now);
                      && data.Some? && Lookup(data.value, "email") == JStr(r.value.user.email)
                      && old(UserByEmail(db.users, r.value.user.email)).Some?
                      && r.value.user == old(UserByEmail(db.users, r.value.user.email)).value.(isVerified := true)
    ensures r.Ok? ==> r.value.message == VERIFIED_DONE && r.value.user in db.users
                      && db.users == ReplaceUserById(old(db.users), r.value.user)
                      && db.books == old(db.books) && db.reviews == old(db.reviews)
  {
    var data := ActionTokens.DecodeUrlSafeToken(cfg, token, ActionTokens.URL_TOKEN_MAX_AGE, now);
    if data.None? {
      return Err(Fail(BAD_REQUEST, INVALID_LINK));
    }
    var email := Lookup(data.value, "email");
    if !Truthy(email) {
      return Err(Fail(INTERNAL_SERVER_ERROR, VERIFY_ERROR));
    }
    if !email.JStr? {
      return Err(Crash("DataError: the email parameter is not a string"));
    }
    var user := UserByEmail(db.users, email.s);
    if user.None? {
      return Err(Fail(NOT_FOUND, USER_NOT_FOUND));
    }
    var updated := user.value.(isVerified := true);
    var i :| 0 <= i < |db.users| && db.users[i] == user.value;
    db.ReplaceUser(updated);
    assert db.users[i] == updated;
    r := Ok(UserReply(VERIFIED_DONE, updated));
  }

  // ------------------------------------------------------------------ login

  /** The access token `login_user` issues for `u` at `now`: e-mail, id and
      role for an hour, signed with the server's own key and algorithm. */
  ghost predicate AccessIssued(cfg: SessionTokens.Config, a: SessionTokens.Token, u: User, now: int) {
    && a.Jws? && a == SessionTokens.Encode(cfg, a.claims)
    && a.claims.Keys == {"user", "exp", "jti", "refresh"}
    && a.claims["user"] == AccessUserClaim(u) && a.claims["refresh"] == JBool(false)
    && a.claims["exp"] == JInt(now + SessionTokens.ACCESS_TOKEN_EXPIRY) && a.claims["jti"].JStr?
  }

  /** The refresh token `login_user` issues for `u` at `now`: e-mail and id
      for two days, signed with the server's own key and algorithm. */
  ghost predicate RefreshIssued(cfg: SessionTokens.Config, f: SessionTokens.Token, u: User, now: int) {
    && f.Jws? && f == SessionTokens.Encode(cfg, f.claims)
    && f.claims.Keys == {"user", "exp", "jti", "refresh"}
    && f.claims["user"] == RefreshUserClaim(u) && f.claims["refresh"] == JBool(true)
    && f.claims["exp"] == JInt(now + REFRESH_TOKEN_EXPIRY) && f.claims["jti"].JStr?
  }

  /** What a successful login hands out for `u` at time `now`: its access
      and refresh tokens, under different jtis. */
  ghost predicate LoginIssued(cfg: SessionTokens.Config, reply: LoginReply, u: User, now: int) {
    && reply.message == LOGIN_DONE
    && AccessIssued(cfg, reply.accessToken, u, now) && RefreshIssued(cfg, reply.refreshCookie, u, now)
    && reply.accessToken.claims["jti"] != reply.refreshCookie.claims["jti"]
  }

  /** The jti of an issued token, as the supply handed it out. */
  ghost function Jti(t: SessionTokens.Token): string
    requires t.Jws? && "jti" in t.claims && t.claims["jti"].JStr?
  {
    t.claims["jti"].s
  }

  /** The two jtis of a login reply were never handed out before, and they
      are exactly what the supply issued meanwhile. */
  ghost predicate JtisFresh(cfg: SessionTokens.Config, reply: LoginReply, u: User, now: int,
                            before: set<string>, after: set<string>)
    requires LoginIssued(cfg, reply, u, now)
  {
    && Jti(reply.accessToken) !in before && Jti(reply.refreshCookie) !in before
    && after == before + {Jti(reply.accessToken), Jti(reply.refreshCookie)}
  }

  /** `create_access_token(user_data={email, user_uid, role})`, under a new jti. */
  method IssueAccessToken(cfg: SessionTokens.Config, ids: UuidSupply, u: User, now: int)
    returns (a: SessionTokens.Token)
    requires ids.Valid()
    modifies ids
    ensures ids.Valid()
    ensures AccessIssued(cfg, a, u, now)
    ensures Jti(a) !in old(ids.issued) && ids.issued == old(ids.issued) + {Jti(a)}
  {
    var jti := ids.Fresh();
    a := SessionTokens.CreateAccessToken(cfg, AccessUserClaim(u), None, false, now, jti);
  }

  /** `create_access_token(user_data={email, user_uid}, refresh=True, expiry=2 days)`, under a new jti. */
  method IssueRefreshToken(cfg: SessionTokens.Config, ids: UuidSupply, u: User, now: int)
    returns (f: SessionTokens.Token)
    requires ids.Valid()
    modifies ids
    ensures ids.Valid()
    ensures RefreshIssued(cfg, f, u, now)
    ensures Jti(f) !in old(ids.issued) && ids.issued == old(ids.issued) + {Jti(f)}
  {
    var jti := ids.Fresh();
    f := SessionTokens.CreateAccessToken(cfg, RefreshUserClaim(u), Some(REFRESH_TOKEN_EXPIRY), true, now, jti);
  }

  /** POST /login, as written: when the password is wrong the refresh token
      is still made, and building the response then reads `access_token`,
      which was never assigned (an `UnboundLocalError`). */
  method LoginUser(db: Session, ids: UuidSupply, cfg: SessionTokens.Config, now: int, m: UserLoginModel)
    returns (r: Result<LoginReply>)
    requires ids.Valid()
    modifies ids
    ensures ids.Valid()
    ensures !LoginValid(m) ==> r == Err(VALIDATION_FAILED)
    ensures LoginValid(m) && UserByUsername(db.users, m.username).None? ==> r == Err(Fail(FORBIDDEN, BAD_LOGIN))
    ensures LoginValid(m) && UserByUsername(db.users, m.username).Some?
            && !VerifyPass(m.password, UserByUsername(db.users, m.username).value.passwordHash) ==>
              r.Err? && r.failure.Crash?
    ensures r.Ok? <==> LoginValid(m) && UserByUsername(db.users, m.username).Some?
                       && VerifyPass(m.password, UserByUsername(db.users, m.username).value.passwordHash)
    ensures r.Ok? ==> var u := UserByUsername(db.users, m.username).value;
                      LoginIssued(cfg, r.value, u, now) && JtisFresh(cfg, r.value, u, now, old(ids.issued), ids.issued)
  {
    if !LoginValid(m) {
      return Err(VALIDATION_FAILED);
    }
    var user := UserByUsername(db.users, m.username);
    if user.None? {
      return Err(Fail(FORBIDDEN, BAD_LOGIN));
    }
    var u := user.value;
    var passwordValid := VerifyPass(m.password, u.passwordHash);
    var access: Option<SessionTokens.Token> := None;
    if passwordValid {
      var t := IssueAccessToken(cfg, ids, u, now);
      access := Some(t);
    }
    var refresh := IssueRefreshToken(cfg, ids, u, now);
    if access.None? {
      return Err(Crash("UnboundLocalError: local variable 'access_token' referenced before assignment"));
    }
    r := Ok(LoginReply(LOGIN_DONE, access.value, refresh));
  }

  /** Until the access token expires, and while neither jti is revoked, the
      access token of a login passes the access bearer and the refresh token
      the refresh bearer, each with its own claims. */
  lemma LoginTokensPassGuards(cfg: SessionTokens.Config, reply: LoginReply, u: User, now: int,
                              later: int, bl: Blocklist.TokenBlocklist)
    requires LoginIssued(cfg, reply, u, now)
    requires later < now + SessionTokens.ACCESS_TOKEN_EXPIRY
    requires !bl.TokenInBlocklist(Jti(reply.accessToken)) && !bl.TokenInBlocklist(Jti(reply.refreshCookie))
    ensures Authenticate(Access, cfg, Some(reply.accessToken), later, bl) == Ok(reply.accessToken.claims)
    ensures Authenticate(Refresh, cfg, Some(reply.refreshCookie), later, bl) == Ok(reply.refreshCookie.claims)
  {
    var a, f := reply.accessToken, reply.refreshCookie;
    IssuedTokenKind(cfg, a.claims, false, Jti(a), later, bl);
    IssuedTokenKind(cfg, f.claims, true, Jti(f), later, bl);
  }

  /** POST /login as its final `raise` shows it was meant: a wrong password
      is refused like an unknown username, and tokens are made only for a
      correct one. */
  method LoginUserIntended(db: Session, ids: UuidSupply, cfg: SessionTokens.Config, now: int, m: UserLoginModel)
    returns (r: Result<LoginReply>)
    requires ids.Valid()
    modifies ids
    ensures ids.Valid()
    ensures !LoginValid(m) ==> r == Err(VALIDATION_FAILED)
    ensures LoginValid(m) && (UserByUsername(db.users, m.username).None?
                              || !VerifyPass(m.password, UserByUsername(db.users, m.username).value.passwordHash)) ==>
              r == Err(Fail(FORBIDDEN, BAD_LOGIN))
    ensures r.Ok? <==> LoginValid(m) && UserByUsername(db.users, m.username).Some?
                       && VerifyPass(m.password, UserByUsername(db.users, m.username).value.passwordHash)
    ensures r.Ok? ==> var u := UserByUsername(db.users, m.username).value;
                      LoginIssued(cfg, r.value, u, now) && JtisFresh(cfg, r.value, u, now, old(ids.issued), ids.issued)
  {
    if !LoginValid(m) {
      return Err(VALIDATION_FAILED);
    }
    var user := UserByUsername(db.users, m.username);
    if user.Some? && VerifyPass(m.password, user.value.passwordHash) {
      var u := user.value;
      var access := IssueAccessToken(cfg, ids, u, now);
      var refresh := IssueRefreshToken(cfg, ids, u, now);
      return Ok(LoginReply(LOGIN_DONE, access, refresh));
    }
    r := Err(Fail(FORBIDDEN, BAD_LOGIN));
  }

  // ---------------------------------------------------------- refresh_token

  /** GET /refresh_token: a new access token for the refresh token's `user`
      claim, with the default lifetime. */
  method GetNewAccessToken(cfg: SessionTokens.Config, creds: Option<SessionTokens.Token>, now: int,
                           bl: Blocklist.TokenBlocklist, ids: UuidSupply)
    returns (r: Result<SessionTokens.Token>)
    requires ids.Valid()
    modifies ids
    ensures ids.Valid()
    ensures Authenticate(Refresh, cfg, creds, now, bl).Err? ==>
              r == Authenticate(Refresh, cfg, creds, now, bl).PropagateFailure()
    ensures r.Ok? <==> Authenticate(Refresh, cfg, creds, now, bl).Ok?
                       && "exp" in Authenticate(Refresh, cfg, creds, now, bl).value
                       && "user" in Authenticate(Refresh, cfg, creds, now, bl).value
    ensures r != Err(Fail(BAD_REQUEST, REFRESH_UNREACHABLE))
    ensures r.Ok? ==> var claims := Authenticate(Refresh, cfg, creds, now, bl).value;
                      && r.value.Jws? && r.value.claims.Keys == {"user", "exp", "jti", "refresh"}
                      && r.value.claims["user"] == claims["user"]
                      && r.value.claims["refresh"] == JBool(false)
                      && r.value.claims["exp"] == JInt(now + SessionTokens.ACCESS_TOKEN_EXPIRY)
                      && SessionTokens.DecodeToken(cfg, r.value, now) == Ok(r.value.claims)
                      && r.value == SessionTokens.Encode(cfg, r.value.claims)
    ensures r.Ok? ==> r.value.Jws? && "jti" in r.value.claims && r.value.claims["jti"].JStr?
                      && r.value.claims["jti"].s !in old(ids.issued)
                      && ids.issued == old(ids.issued) + {r.value.claims["jti"].s}
  {
    var claims :- Authenticate(Refresh, cfg, creds, now, bl);
    if "exp" !in claims {
      return Err(Crash("KeyError: 'exp'"));
    }
    var expiry := claims["exp"];
    if expiry.JInt? && expiry.i > now {
      if "user" !in claims {
        return Err(Crash("KeyError: 'user'"));
      }
      var jti := ids.Fresh();
      var t := SessionTokens.CreateAccessToken(cfg, claims["user"], None, false, now, jti);
      return Ok(t);
    }
    assert false;
    return Err(Fail(BAD_REQUEST, REFRESH_UNREACHABLE));
  }

  // --------------------------------------------------------------------- me

  /** GET /me: the current user, once the role checker has let them through. */
  function GetMe(cfg: SessionTokens.Config, creds: Option<SessionTokens.Token>, now: int,
                 bl: Blocklist.TokenBlocklist, users: seq<User>): (r: Result<User>)
    reads bl
    ensures r.Ok? <==> CurrentUser(cfg, creds, now, bl, users).Ok?
                       && RoleCheck(AUTH_ROLES, CurrentUser(cfg, creds, now, bl, users).value).Ok?
    ensures r.Ok? ==> r.value in users && r.value.isVerified && r.value.role in AUTH_ROLES
    ensures r.Ok? ==> CurrentUser(cfg, creds, now, bl, users) == Ok(Some(r.value))
  {
    var current :- CurrentUser(cfg, creds, now, bl, users);
    var allowed :- RoleCheck(AUTH_ROLES, current);
    Ok(current.value)
  }

  // ----------------------------------------------------------------- logout

  /** GET /logout: revokes the access token's jti. */
  method RevokeToken(cfg: SessionTokens.Config, creds: Option<SessionTokens.Token>, now: int,
                     bl: Blocklist.TokenBlocklist)
    returns (r: Result<string>)
    modifies bl
    ensures bl.clock == old(bl.clock)
    ensures old(Authenticate(Access, cfg, creds, now, bl)).Err? ==>
              r == old(Authenticate(Access, cfg, creds, now, bl)).PropagateFailure()
              && bl.entries == old(bl.entries)
    ensures r.Ok? <==> old(Authenticate(Access, cfg, creds, now, bl)).Ok?
    ensures r.Ok? ==> r.value == LOGGED_OUT
    ensures r.Ok? ==> var key := RedisKey(old(Authenticate(Access, cfg, creds, now, bl)).value["jti"]).value;
                      bl.entries == Blocklist.RedisSetEx(old(bl.entries), bl.clock, key, "", Blocklist.BLOCKLIST_TTL)
    ensures r.Ok? ==> Authenticate(Access, cfg, creds, now, bl) == Err(Fail(FORBIDDEN, TOKEN_REVOKED))
  {
    var claims :- Authenticate(Access, cfg, creds, now, bl);
    var key := RedisKey(claims["jti"]).value;
    bl.AddJtiToBlocklist(key);
    r := Ok(LOGGED_OUT);
  }

  // --------------------------------------------------------- password reset

  /** POST /password-reset-request: the reply is the same whether or not the
      address belongs to anyone; the link is mailed, not returned. */
  method PasswordResetRequest(cfg: SessionTokens.Config, now: int, email: string)
    returns (message: string, link: ActionTokens.UrlToken)
    ensures message == RESET_SENT
    ensures link == ActionTokens.Dumps(cfg, LinkData(email), now)
  {
    link := MakeLink(cfg, email, now);
    message := RESET_SENT;
  }

  /** POST /password-reset-confirm/{token}. */
  method ResetAccountPassword(db: Session, ids: UuidSupply, cfg: SessionTokens.Config, now: int,
                              token: ActionTokens.UrlToken, m: PasswordResetConfirmModel)
    returns (r: Result<UserReply>)
    requires Tracked(db, ids)
    modifies db, ids
    ensures Tracked(db, ids)
    ensures !ResetConfirmValid(m) ==> r == Err(VALIDATION_FAILED)
    ensures ResetConfirmValid(m) && m.newPassword != m.confirmPassword ==> r == Err(Fail(OK, PASSWORDS_DIFFER))
    ensures ResetConfirmValid(m) && m.newPassword == m.confirmPassword
            && ActionTokens.DecodeUrlSafeToken(cfg, token, ActionTokens.URL_TOKEN_MAX_AGE, now).None? ==>
              r == Err(Fail(BAD_REQUEST, INVALID_LINK))
    ensures var data := ActionTokens.DecodeUrlSafeToken(cfg, token, ActionTokens.URL_TOKEN_MAX_AGE, now);
            ResetConfirmValid(m) && m.newPassword == m.confirmPassword && data.Some? && !Truthy(Lookup(data.value, "email")) ==>
              r == Err(Fail(INTERNAL_SERVER_ERROR, RESET_ERROR))
    ensures var data := ActionTokens.DecodeUrlSafeToken(cfg, token, ActionTokens.URL_TOKEN_MAX_AGE, now);
            ResetConfirmValid(m) && m.newPassword == m.confirmPassword && data.Some?
              && Truthy(Lookup(data.value, "email")) && !Lookup(data.value, "email").JStr? ==>
              r.Err? && r.failure.Crash?
    ensures var data := ActionTokens.DecodeUrlSafeToken(cfg, token, ActionTokens.URL_TOKEN_MAX_AGE, now);
            ResetConfirmValid(m) && m.newPassword == m.confirmPassword && data.Some?
              && Lookup(data.value, "email").JStr? && Lookup(data.value, "email").s != "" ==>
              var e := Lookup(data.value, "email").s;
              && (old(UserByEmail(db.users, e)).None? ==> r == Err(Fail(NOT_FOUND, USER_NOT_FOUND)))
              && (old(UserByEmail(db.users, e)).Some? ==> r.Ok?)
    ensures r.Err? ==> db.Snapshot() == old(db.Snapshot())
    ensures r.Ok? ==> var data := ActionTokens.DecodeUrlSafeToken(cfg, token, ActionTokens.URL_TOKEN_MAX_AGE, now);
                      && ResetConfirmValid(m) && m.newPassword == m.confirmPassword
                      && data.Some? && Lookup(data.value, "email") == JStr(r.value.user.email)
                      && old(UserByEmail(db.users, r.value.user.email)).Some?
                      && r.value.user == old(UserByEmail(db.users, r.value.user.email)).value.(passwordHash := r.value.user.passwordHash)
                      && (forall p :: VerifyPass(p, r.value.user.passwordHash) <==> p == m.newPassword)
    ensures r.Ok? ==> r.value.message == RESET_DONE && r.value.user in db.users
                      && db.users == ReplaceUserById(old(db.users), r.value.user)
                      && db.books == old(db.books) && db.reviews == old(db.reviews)
  {
    if !ResetConfirmValid(m) {
      return Err(VALIDATION_FAILED);
    }
    if m.newPassword != m.confirmPassword {
      return Err(Fail(OK, PASSWORDS_DIFFER));
    }
    var data := ActionTokens.DecodeUrlSafeToken(cfg, token, ActionTokens.URL_TOKEN_MAX_AGE, now);
    if data.None? {
      return Err(Fail(BAD_REQUEST, INVALID_LINK));
    }
    var email := Lookup(data.value, "email");
    if !Truthy(email) {
      return Err(Fail(INTERNAL_SERVER_ERROR, RESET_ERROR));
    }
    if !email.JStr? {
      return Err(Crash("DataError: the email parameter is not a string"));
    }
    var user := UserByEmail(db.users, email.s);
    if user.None? {
      return Err(Fail(NOT_FOUND, USER_NOT_FOUND));
    }
    var salt := ids.Fresh();
    var updated := user.value.(passwordHash := GeneratePassHash(m.newPassword, salt));
    var i :| 0 <= i < |db.users| && db.users[i] == user.value;
    db.ReplaceUser(updated);
    assert db.users[i] == updated;
    r := Ok(UserReply(RESET_DONE, updated));
  }
}
