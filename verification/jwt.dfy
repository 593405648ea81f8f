/** The `jsonwebtoken` library as the backend uses it: `sign` with an
    expiry and `verify` against the secret at a given time (in seconds). A
    token is either one this library signed, which remembers its claims and
    key, or any other text. */
module Jwt {
  import opened Wrappers

  /** `expiresIn: '1d'`, in seconds. */
  const OneDay := 86400

  /** The payload `{ userId }` plus the issued-at and expiry times. */
  datatype Claims = Claims(userId: string, iat: int, exp: int)

  datatype Token = Signed(claims: Claims, key: string) | Opaque(text: string)

  /** Why `verify` throws: `JsonWebTokenError` for the first three,
      `TokenExpiredError` for the last. */
  datatype JwtFailure = Malformed | SecretMissing | InvalidSignature | Expired(expiredAt: int)

  /** `jwt.sign({ userId }, key, { expiresIn })` at time `now`; an empty key
      makes it throw. */
  function Sign(userId: string, key: string, now: int, expiresIn: nat): (r: Result<Token, string>)
    ensures r.Ok? <==> key != ""
    ensures r.Ok? ==> r.value == Signed(Claims(userId, now, now + expiresIn), key)
  {
    if key == "" then Err("secretOrPrivateKey must have a value")
    else Ok(Signed(Claims(userId, now, now + expiresIn), key))
  }

  /** `jwt.verify(token, key)` at time `now`: checks the shape, then the
      key, then the signature, then the expiry. */
  function Verify(token: Token, key: string, now: int): (r: Result<Claims, JwtFailure>)
    // Only a token this library signed with the same key, and not yet expired, verifies.
    ensures r.Ok? <==> token.Signed? && key != "" && token.key == key && now < token.claims.exp
    ensures r.Ok? ==> r.value == token.claims
    ensures r.Err? && token.Signed? && key != "" && token.key == key ==> r.error == Expired(token.claims.exp)
  {
    match token
    case Opaque(_) => Err(Malformed)
    case Signed(claims, signedWith) =>
      if key == "" then Err(SecretMissing)
      else if signedWith != key then Err(InvalidSignature)
      else if now >= claims.exp then Err(Expired(claims.exp))
      else Ok(claims)
  }

  /** A freshly signed token verifies, with the signed user id, for its whole lifetime. */
  lemma SignVerify(userId: string, key: string, now: int, expiresIn: nat, later: int)
    requires key != "" && later < now + expiresIn
    ensures Sign(userId, key, now, expiresIn).Ok?
    ensures Verify(Sign(userId, key, now, expiresIn).value, key, later) == Ok(Claims(userId, now, now + expiresIn))
    ensures Verify(Sign(userId, key, now, expiresIn).value, key, now + expiresIn) == Err(Expired(now + expiresIn))
  {
  }
}
