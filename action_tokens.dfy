/** The URL-safe action-link codec of `create_url_safe_token` /
    `decode_url_safe_token` (itsdangerous' timed serializer, salted with
    "email.configuration"). The signature is abstract: it records the key,
    the salt, the data and the signing time it covers. */
module ActionTokens {
  import opened Results
  import opened Json
  import SessionTokens

  /** The default `expiry` argument: a count of seconds stored in the data. */
  const URL_TOKEN_EXPIRY := 86400
  /** The default `max_age` of `decode_url_safe_token`. */
  const URL_TOKEN_MAX_AGE := 86400
  const SALT := "email.configuration"

  datatype UrlSignature = UrlSignature(key: string, salt: string, data: Object, timestamp: int)

  datatype UrlToken = SignedUrl(data: Object, timestamp: int, sig: UrlSignature) | Unreadable

  /** A Python dict that a callee may change in place. */
  class JsonDict {
    var items: Object

    constructor (items: Object)
      ensures this.items == items
    {
      this.items := items;
    }
  }

  /** `serializer.dumps(data)` at time `now`. */
  function Dumps(cfg: SessionTokens.Config, data: Object, now: int): UrlToken {
    SignedUrl(data, now, UrlSignature(cfg.secret, SALT, data, now))
  }

  /** `create_url_safe_token(data, expiry)`: stores `"exp": expiry` into the
      caller's dict, then signs the dict as it now is. */
  method CreateUrlSafeToken(cfg: SessionTokens.Config, data: JsonDict, expiry: int, now: int)
    returns (t: UrlToken)
    modifies data
    ensures data.items == old(data.items)["exp" := JInt(expiry)]
    ensures t == Dumps(cfg, data.items, now)
  {
    data.items := data.items["exp" := JInt(expiry)];
    t := Dumps(cfg, data.items, now);
  }

  /** `decode_url_safe_token(token, max_age)` at time `now`: None when the
      token does not parse, its signature does not match, or its age lies
      outside 0..max_age; otherwise the data exactly as signed. The stored
      `exp` plays no part. */
  function DecodeUrlSafeToken(cfg: SessionTokens.Config, t: UrlToken, maxAge: int, now: int): (r: Option<Object>)
    ensures r.Some? <==> t.SignedUrl? && t == Dumps(cfg, t.data, t.timestamp) && 0 <= now - t.timestamp <= maxAge
    ensures r.Some? ==> r.value == t.data
  {
    match t
    case Unreadable => None
    case SignedUrl(data, ts, sig) =>
      if sig != UrlSignature(cfg.secret, SALT, data, ts) then None
      else
        var age := now - ts;
        if age > maxAge then None
        else if age < 0 then None
        else Some(data)
  }

  /** Round trip: within `max_age` of signing the data comes back unchanged, `exp` included. */
  lemma UrlTokenRoundTrip(cfg: SessionTokens.Config, data: Object, issued: int, now: int)
    requires issued <= now <= issued + URL_TOKEN_MAX_AGE
    ensures DecodeUrlSafeToken(cfg, Dumps(cfg, data, issued), URL_TOKEN_MAX_AGE, now) == Some(data)
  {
  }

  /** After `max_age` the link is dead, whatever `exp` it carries. */
  lemma UrlTokenExpires(cfg: SessionTokens.Config, data: Object, issued: int, now: int)
    requires now > issued + URL_TOKEN_MAX_AGE
    ensures DecodeUrlSafeToken(cfg, Dumps(cfg, data, issued), URL_TOKEN_MAX_AGE, now) == None
  {
  }

  /** A link whose data was altered is refused. */
  lemma UrlTokenTamperRejected(cfg: SessionTokens.Config, data: Object, forged: Object, issued: int, now: int)
    requires forged != data
    ensures DecodeUrlSafeToken(cfg, SignedUrl(forged, issued, Dumps(cfg, data, issued).sig), URL_TOKEN_MAX_AGE, now) == None
  {
  }
}
