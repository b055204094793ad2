/**
 * What the controllers call but do not define, as values handed to them:
 * JSON Web Token signing and verification (RFC 7519), the SHA-256 hex digest
 * of a reset token, the user model's `correctPassword` and
 * `changedPasswordAfter` methods, the schema's default role, and the
 * process environment (`JWT_COOKIE_EXPIRES_IN`, `NODE_ENV`).
 *
 * Only the properties the controllers rely on are stated, as predicates that
 * the lemmas needing them require.
 */
module Collaborators {
  import opened Wrappers
  import opened UserModel
  import BearerToken

  /** The verified payload of a session token: the subject id and its `iat` claim (RFC 7519 section 4.1.6). */
  datatype Claims = Claims(id: Id, iat: int)

  datatype Env = Env(
    sign: (Id, int) -> string,                           // jwt.sign({ id }, JWT_SECRET, { expiresIn }) at time now
    verify: (string, int) -> Option<Claims>,             // jwt.verify(token, JWT_SECRET) at time now; None when it throws
    sha256Hex: string -> string,                         // crypto.createHash('sha256').update(s).digest('hex')
    correctPassword: (Option<string>, Option<string>) -> bool, // user.correctPassword(candidate, stored)
    changedPasswordAfter: (UserRecord, int) -> bool,     // user.changedPasswordAfter(iat)
    defaultRole: string,                                 // the schema's default for `role`
    cookieExpiresInDays: int,                            // JWT_COOKIE_EXPIRES_IN
    production: bool)                                    // NODE_ENV === 'production'

  /** A token verifies, at the instant it was signed, to the id it was signed for. */
  ghost predicate VerifiesOwnTokens(env: Env)
  {
    forall id: Id, now: int ::
      env.verify(env.sign(id, now), now).Some? && env.verify(env.sign(id, now), now).value.id == id
  }

  /**
   * Signed tokens are `b64token`s in the sense of RFC 6750 (a JWS compact
   * serialization is base64url text joined by dots).
   */
  ghost predicate TokensAreB64(env: Env)
  {
    forall id: Id, now: int :: BearerToken.IsB64Token(env.sign(id, now))
  }

  /** Distinct reset tokens have distinct digests. */
  ghost predicate DigestInjective(env: Env)
  {
    forall a: string, b: string :: env.sha256Hex(a) == env.sha256Hex(b) ==> a == b
  }
}
