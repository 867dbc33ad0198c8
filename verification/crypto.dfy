/**
 * The password-hashing and access-token helpers of the backend, kept
 * abstract: a bcrypt digest is a value that accepts exactly the password it
 * was made from, and a JWT is reduced to what the server reads back out of
 * it, its subject (`sub`), its expiry (`exp`) and whether its signature and
 * encoding check out.
 */
module Crypto {
  import opened Wrappers

  /** Lifetime of an access token, in minutes of the server clock (seven days). */
  const AccessTokenExpireMinutes: int := 60 * 24 * 7

  /**
   * A stored bcrypt digest. The model keeps the password itself inside it:
   * one-wayness, the salt and the cost factor are not modelled, only that a
   * digest identifies the password it was made from.
   */
  datatype PasswordHash = Bcrypt(digestOf: string)

  /** Whether `plain` is the password that `hashed` was made from. */
  predicate VerifyPassword(plain: string, hashed: PasswordHash): (ok: bool)
    ensures ok <==> hashed == Bcrypt(plain)
  {
    hashed.digestOf == plain
  }

  /** Hashes a password for storage. */
  function HashPassword(password: string): (h: PasswordHash)
    ensures VerifyPassword(password, h)
    ensures forall other :: VerifyPassword(other, h) ==> other == password
  {
    Bcrypt(password)
  }

  /**
   * What the server reads back out of a bearer token. `signed` is false for
   * anything that does not decode: a bad signature, a bad encoding, a wrong
   * algorithm. A signed token may lack `sub`, and may lack `exp`, in which
   * case the decoder applies no expiry.
   */
  datatype Token = Token(signed: bool, sub: Option<string>, exp: Option<int>)

  /** Issues a token for `sub` at time `now`, expiring seven days later. */
  function CreateAccessToken(sub: string, now: int): (t: Token)
    ensures forall later ::
      DecodeToken(t, later) == (if later < now + AccessTokenExpireMinutes then Some(sub) else None)
  {
    Token(true, Some(sub), Some(now + AccessTokenExpireMinutes))
  }

  /**
   * Decodes a bearer token at time `now`: the subject, or None when the
   * token is not signed, is expired (`now` has reached `exp`) or carries no
   * subject. The model answers each of these with 401, the response the
   * handler's exception clauses are written to give.
   */
  function DecodeToken(t: Token, now: int): (subject: Option<string>)
    ensures subject.Some? <==>
      t.signed && t.sub.Some? && (t.exp.None? || now < t.exp.value)
    ensures subject.Some? ==> subject == t.sub
  {
    if !t.signed then None
    else if t.exp.Some? && now >= t.exp.value then None
    else if t.sub.None? then None
    else t.sub
  }
}
