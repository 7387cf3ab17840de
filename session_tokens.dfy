/** The session-token codec of `create_access_token` / `decode_token`: a JWT
    signed with the process-wide secret and algorithm. The signature is an
    abstract value recording the key, the algorithm and the exact claims it
    covers, so a token verifies only if it was signed with this server's key
    over exactly these claims. */
module SessionTokens {
  import opened Results
  import opened Json

  /** `timedelta(minutes=60)`, in seconds. */
  const ACCESS_TOKEN_EXPIRY := 3600

  const EXPIRED_DETAIL := "Token has expired. Please log in again."
  const INVALID_DETAIL := "Invalid token. Please provide a valid token."

  /** `Config.JWT_SECRET` and `Config.JWT_ALGORITHM`. */
  datatype Config = Config(secret: string, algorithm: string)

  datatype Signature = Signature(key: string, alg: string, claims: Object)

  /** A bearer credential: a compact JWS, or a string that does not parse as one. */
  datatype Token = Jws(alg: string, claims: Object, sig: Signature) | Malformed

  /** `jwt.encode(payload, secret, algorithm)`. */
  function Encode(cfg: Config, claims: Object): Token {
    Jws(cfg.algorithm, claims, Signature(cfg.secret, cfg.algorithm, claims))
  }

  /** The PyJWT exceptions `decode_token` can meet. `InvalidAlgorithmError`
      is not a `DecodeError`. */
  datatype JwtError = ExpiredSignatureError | DecodeError | InvalidAlgorithmError

  datatype Decoded = Decoded(claims: Object) | Rejected(error: JwtError)

  /** `jwt.decode(token, secret, algorithms=[alg])` at time `now`: the header's
      algorithm is checked first, then the signature, then `exp` (which PyJWT
      checks only when present; the leeway is 0). */
  function JwtDecode(cfg: Config, t: Token, now: int): Decoded {
    match t
    case Malformed => Rejected(DecodeError)
    case Jws(alg, claims, sig) =>
      if alg != cfg.algorithm then Rejected(InvalidAlgorithmError)
      else if sig != Signature(cfg.secret, alg, claims) then Rejected(DecodeError)
      else if "exp" !in claims then Decoded(claims)
      else if !claims["exp"].JInt? then Rejected(DecodeError)
      else if claims["exp"].i <= now then Rejected(ExpiredSignatureError)
      else Decoded(claims)
  }

  /** `decode_token`: the two caught PyJWT errors become 401s; an
      `InvalidAlgorithmError` escapes as an unhandled exception. */
  function DecodeToken(cfg: Config, t: Token, now: int): (r: Result<Object>)
    ensures r.Ok? ==> t == Encode(cfg, r.value)
    ensures r.Ok? ==> "exp" in r.value ==> r.value["exp"].JInt? && now < r.value["exp"].i
    ensures r.Err? ==> r.failure.Crash? || r.failure.status == UNAUTHORIZED
  {
    match JwtDecode(cfg, t, now)
    case Decoded(claims) => Ok(claims)
    case Rejected(ExpiredSignatureError) => Err(Fail(UNAUTHORIZED, EXPIRED_DETAIL))
    case Rejected(DecodeError) => Err(Fail(UNAUTHORIZED, INVALID_DETAIL))
    case Rejected(InvalidAlgorithmError) => Err(Crash("InvalidAlgorithmError: The specified alg value is not allowed"))
  }

  /** Round trip: a token this server signed decodes to its own claims until `exp`. */
  lemma DecodeEncoded(cfg: Config, claims: Object, now: int)
    requires "exp" in claims && claims["exp"].JInt? && now < claims["exp"].i
    ensures DecodeToken(cfg, Encode(cfg, claims), now) == Ok(claims)
  {
  }

  /** From `exp` on, the same token is reported as expired. */
  lemma EncodedExpires(cfg: Config, claims: Object, now: int)
    requires "exp" in claims && claims["exp"].JInt? && claims["exp"].i <= now
    ensures DecodeToken(cfg, Encode(cfg, claims), now) == Err(Fail(UNAUTHORIZED, EXPIRED_DETAIL))
  {
  }

  /** Changing the claims under an existing signature is detected. */
  lemma TamperedClaimsRejected(cfg: Config, claims: Object, forged: Object, now: int)
    requires forged != claims
    ensures DecodeToken(cfg, Jws(cfg.algorithm, forged, Encode(cfg, claims).sig), now)
            == Err(Fail(UNAUTHORIZED, INVALID_DETAIL))
  {
  }

  /** A token signed with another key is rejected. */
  lemma ForeignKeyRejected(cfg: Config, key: string, claims: Object, now: int)
    requires key != cfg.secret
    ensures DecodeToken(cfg, Jws(cfg.algorithm, claims, Signature(key, cfg.algorithm, claims)), now)
            == Err(Fail(UNAUTHORIZED, INVALID_DETAIL))
  {
  }

  /** A token whose header names another algorithm escapes `decode_token` uncaught. */
  lemma ForeignAlgorithmCrashes(cfg: Config, t: Token, now: int)
    requires t.Jws? && t.alg != cfg.algorithm
    ensures DecodeToken(cfg, t, now).Err? && DecodeToken(cfg, t, now).failure.Crash?
  {
  }

  function ExpiryOrDefault(expiry: Option<int>): int {
    if expiry.None? then ACCESS_TOKEN_EXPIRY else expiry.value
  }

  /** `create_access_token(user_data, expiry, refresh)`, issued at `now` with
      the fresh identifier `jti` (the value of `uuid.uuid4()`). */
  method CreateAccessToken(cfg: Config, userData: Json, expiry: Option<int>, refresh: bool, now: int, jti: string)
    returns (t: Token)
    ensures t.Jws? && t.claims.Keys == {"user", "exp", "jti", "refresh"}
    ensures t.claims["user"] == userData
    ensures t.claims["exp"] == JInt(now + ExpiryOrDefault(expiry))
    ensures t.claims["jti"] == JStr(jti)
    ensures t.claims["refresh"] == JBool(refresh)
    ensures t == Encode(cfg, t.claims)
    ensures forall later :: later < now + ExpiryOrDefault(expiry) ==> DecodeToken(cfg, t, later) == Ok(t.claims)
    ensures forall later :: later >= now + ExpiryOrDefault(expiry) ==>
              DecodeToken(cfg, t, later) == Err(Fail(UNAUTHORIZED, EXPIRED_DETAIL))
  {
    var lifetime := if expiry.None? then ACCESS_TOKEN_EXPIRY else expiry.value;
    var payload: Object := map[];
    payload := payload["user" := userData];
    payload := payload["exp" := JInt(now + lifetime)];
    payload := payload["jti" := JStr(jti)];
    payload := payload["refresh" := JBool(refresh)];
    t := Encode(cfg, payload);
  }
}
