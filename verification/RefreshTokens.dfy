/** The names that the interleaved and the sequential model of refresh tokens share. */
module RefreshTokens {
  const REFRESH_LOCK_TTL_MS := 30_000

  /** A refresh family is one (user, session) pair; its key digests the pair injectively. */
  datatype Family = Family(userId: string, sessionId: string)

  /** A signed refresh token: the serial is its unique `jti`. */
  datatype Token = Token(jti: nat, family: Family)

  /** What the family key stores: a fingerprint, or a raw token from before fingerprinting. */
  datatype Stored = Fingerprint(token: Token) | Legacy(token: Token)
}
