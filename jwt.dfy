/** The access-token issuer, reduced to the claims it signs. Signing and encoding are not modelled:
    an access token is its claim set. */
module Jwt {
  /** Every issued token carries this one scope, whatever the user's role. */
  const Scope := "ROLE_USER"

  /** The claims of an access token. Time claims are JWT NumericDates: whole seconds since the epoch
      (section 4.1.4 of RFC 7519). */
  datatype AccessToken = AccessToken(subject: string, scope: string, issuedAt: int, expiresAt: int)

  /** An instant in milliseconds as a NumericDate: the millisecond count divided by 1000, truncated
      toward zero as Java's `/` on `long` does. */
  function EpochSeconds(ms: int): (r: int)
    ensures ms >= 0 ==> 0 <= r * 1000 <= ms < r * 1000 + 1000
    ensures ms < 0 ==> r * 1000 - 1000 < ms <= r * 1000 <= 0
  {
    if ms >= 0 then ms / 1000 else -((-ms) / 1000)
  }

  /** `generateToken`: subject from the authenticated name, expiry `ttl` milliseconds after `now`;
      both instants lose their milliseconds when encoded. */
  function GenerateToken(subject: string, now: int, ttl: int): (t: AccessToken)
    ensures t.subject == subject && t.scope == Scope
    ensures ExtractExpirationTime(t) % 1000 == 0
    ensures now + ttl >= 0 ==> ExtractExpirationTime(t) <= now + ttl < ExtractExpirationTime(t) + 1000
    ensures now >= 0 ==> t.issuedAt * 1000 <= now < t.issuedAt * 1000 + 1000
  {
    AccessToken(subject, Scope, EpochSeconds(now), EpochSeconds(now + ttl))
  }

  /** `extractExpirationTime`: the `exp` claim, in milliseconds. */
  function ExtractExpirationTime(t: AccessToken): (r: int)
    ensures r % 1000 == 0
    ensures EpochSeconds(r) == t.expiresAt
  {
    t.expiresAt * 1000
  }
}
