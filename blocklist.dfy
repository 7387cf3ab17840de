/** The revocation registry of `add_jti_to_blocklist` / `token_in_blocklist`:
    a Redis keyspace in which each revoked jti is a key holding "" with a
    time to live of 3600 s. A key is visible while the registry's clock has
    not passed its expiry time (Redis treats a key as expired once the
    current time is greater than its expiry). */
module Blocklist {
  import opened Results
  import SessionTokens

  /** The `ex=3600` of the `set` call. */
  const BLOCKLIST_TTL := 3600

  datatype Entry = Entry(value: string, expiresAt: int)

  /** Whether `key` is still stored at time `clock`. */
  predicate Live(entries: map<string, Entry>, clock: int, key: string) {
    key in entries && clock <= entries[key].expiresAt
  }

  /** Redis `GET`: the value, or nil once the key is gone. */
  function RedisGet(entries: map<string, Entry>, clock: int, key: string): (r: Option<string>)
    ensures r.Some? <==> Live(entries, clock, key)
  {
    if Live(entries, clock, key) then Some(entries[key].value) else None
  }

  /** Redis `SET key value EX ttl`: overwrites any earlier value and expiry. */
  function RedisSetEx(entries: map<string, Entry>, clock: int, key: string, value: string, ttl: int): map<string, Entry> {
    entries[key := Entry(value, clock + ttl)]
  }

  class TokenBlocklist {
    var entries: map<string, Entry>
    var clock: int

    constructor (start: int)
      ensures entries == map[] && clock == start
    {
      entries := map[];
      clock := start;
    }

    /** `token_in_blocklist(jti)`: the stored value is not None. */
    predicate TokenInBlocklist(jti: string)
      reads this
    {
      RedisGet(entries, clock, jti) != None
    }

    /** `add_jti_to_blocklist(jti)`. */
    method AddJtiToBlocklist(jti: string)
      modifies this
      ensures entries == RedisSetEx(old(entries), old(clock), jti, "", BLOCKLIST_TTL)
      ensures clock == old(clock)
      ensures TokenInBlocklist(jti)
      ensures forall k :: k != jti ==> (TokenInBlocklist(k) <==> old(TokenInBlocklist(k)))
    {
      entries := RedisSetEx(entries, clock, jti, "", BLOCKLIST_TTL);
    }
  }

  /** An empty stored value still counts as present. */
  lemma EmptyValueIsPresent(entries: map<string, Entry>, clock: int, jti: string)
    ensures RedisGet(RedisSetEx(entries, clock, jti, "", BLOCKLIST_TTL), clock, jti) == Some("")
  {
  }

  /** After an add at time `t`, the jti is a member exactly until `t + 3600`. */
  lemma MembershipWindow(entries: map<string, Entry>, t: int, jti: string, later: int)
    ensures Live(RedisSetEx(entries, t, jti, "", BLOCKLIST_TTL), later, jti) <==> later <= t + BLOCKLIST_TTL
  {
  }

  /** Re-adding restarts the window from the time of the second add. */
  lemma ReAddResetsExpiry(entries: map<string, Entry>, t1: int, t2: int, jti: string)
    requires t1 <= t2
    ensures RedisSetEx(RedisSetEx(entries, t1, jti, "", BLOCKLIST_TTL), t2, jti, "", BLOCKLIST_TTL)[jti].expiresAt
            == t2 + BLOCKLIST_TTL
    ensures Live(RedisSetEx(RedisSetEx(entries, t1, jti, "", BLOCKLIST_TTL), t2, jti, "", BLOCKLIST_TTL), t2, jti)
  {
  }

  /** Because the registry's TTL equals the default access-token lifetime, a
      default access token issued at `iat` and revoked at `r >= iat` stays
      revoked for as long as it would still decode (`now < iat + 3600`). */
  lemma RevokedAccessTokenOutlived(entries: map<string, Entry>, iat: int, r: int, jti: string, now: int)
    requires iat <= r <= now < iat + SessionTokens.ACCESS_TOKEN_EXPIRY
    ensures Live(RedisSetEx(entries, r, jti, "", BLOCKLIST_TTL), now, jti)
  {
  }
}
