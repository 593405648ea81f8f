/** Session tokens (backend/src/utils/jwt.util.ts): `generateToken` signs a
    one-day token for a user id and sets it as the `jwt` cookie;
    `verifyToken` turns every verification failure into one 401. */
module JwtUtil {
  import opened Wrappers
  import opened Errors
  import opened Cookies
  import opened Config
  import Jwt

  /** `1 * 24 * 60 * 60 * 1000`. */
  const MaxAgeMs := 1 * 24 * 60 * 60 * 1000

  const VerificationFailed := "Token verification failed"

  /** The options `generateToken` sets the cookie with: always
      `SameSite=None`, `Secure` only when `NODE_ENV` is "production". */
  function IssuedCookieOptions(nodeEnv: Option<string>): (o: CookieOptions)
    ensures o.maxAge == Some(86400000) && o.httpOnly && o.sameSite == SameSiteNone
    ensures o.secure <==> nodeEnv == Some("production")
  {
    CookieOptions(Some(MaxAgeMs), true, SameSiteNone, nodeEnv == Some("production"))
  }

  /** The token and the cookie operation `generateToken` performed. */
  datatype Issued = Issued(token: Jwt.Token, cookie: CookieOp)

  /** `generateToken({ _id: userId }, res)` at time `now` (seconds). */
  function GenerateToken(userId: string, env: Env, now: int): (r: Result<Issued, Thrown>)
    ensures r.Ok? <==> env.jwtSecret != ""
    // The returned token is the one placed in the cookie.
    ensures r.Ok? ==> r.value.cookie == SetCookie(SessionCookie, r.value.token, IssuedCookieOptions(env.nodeEnv))
    // Its payload names the user and expires one day after issue.
    ensures r.Ok? ==> r.value.token.Signed? && r.value.token.claims == Jwt.Claims(userId, now, now + Jwt.OneDay)
    ensures r.Err? ==> r.error.Native? && r.error.name == "Error"
  {
    match Jwt.Sign(userId, env.jwtSecret, now, Jwt.OneDay)
    case Err(msg) => Err(Native("Error", msg, None, [], []))
    case Ok(token) => Ok(Issued(token, SetCookie(SessionCookie, token, IssuedCookieOptions(env.nodeEnv))))
  }

  /** `verifyToken(token)` at time `now`. */
  function VerifyToken(token: Jwt.Token, secret: string, now: int): (r: Result<Jwt.Claims, Thrown>)
    ensures r.Ok? <==> Jwt.Verify(token, secret, now).Ok?
    ensures r.Ok? ==> r.value == token.claims
    // Malformed, wrongly signed and expired tokens all give the same 401.
    ensures r.Err? ==> r.error == App(Unauthorized(Some(VerificationFailed)))
    ensures r.Err? ==> r.error.err.statusCode == 401
  {
    match Jwt.Verify(token, secret, now)
    case Ok(claims) => Ok(claims)
    case Err(_) => Err(App(Unauthorized(Some(VerificationFailed))))
  }

  /** The cookie lives exactly as long as the token it carries. */
  lemma CookieLivesAsLongAsToken()
    ensures MaxAgeMs == Jwt.OneDay * 1000
  {
  }

  /** Verifying a freshly generated token, at any time within its day, yields
      the user id it was generated for. */
  lemma GenerateThenVerify(userId: string, env: Env, now: int, later: int)
    requires env.jwtSecret != "" && later < now + Jwt.OneDay
    ensures GenerateToken(userId, env, now).Ok?
    ensures VerifyToken(GenerateToken(userId, env, now).value.token, env.jwtSecret, later).Ok?
    ensures VerifyToken(GenerateToken(userId, env, now).value.token, env.jwtSecret, later).value.userId == userId
  {
  }
}
