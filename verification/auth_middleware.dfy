/** `protectRoute` (backend/src/middlewares/auth.middleware.ts): reads the
    `jwt` cookie, verifies it, loads the user it names and attaches that
    user (without its password) to the request. */
module AuthMiddleware {
  import opened Wrappers
  import opened Errors
  import opened Config
  import opened UserModel
  import Jwt
  import JwtUtil

  const NoToken := "No token provided"
  const InvalidToken := "Invalid token"
  const UserNotFound := "User not found"

  /** `req.cookies.jwt` is truthy: present and not the empty string. */
  predicate Present(cookie: Option<Jwt.Token>) {
    cookie.Some? && cookie.value != Jwt.Opaque("")
  }

  /** The middleware at time `now`. `Ok(user)` is `next()` with `req.user`
      set to `user`; `Err(e)` is `next(e)`. Either way `next` is called once. */
  function ProtectRoute(users: UserStore, cookie: Option<Jwt.Token>, env: Env, now: int): (r: Result<UserView, Thrown>)
    // A missing or empty cookie is refused before anything is looked up.
    ensures !Present(cookie) ==> r == Err(App(Unauthorized(Some(NoToken))))
    // Any token that does not verify is refused with the verifier's own 401.
    ensures Present(cookie) && Jwt.Verify(cookie.value, env.jwtSecret, now).Err? ==>
      r == Err(App(Unauthorized(Some(JwtUtil.VerificationFailed))))
    // A verified token whose user is gone is refused.
    ensures Present(cookie) && Jwt.Verify(cookie.value, env.jwtSecret, now).Ok? &&
            FindById(users, cookie.value.claims.userId).None? ==>
      r == Err(App(Unauthorized(Some(UserNotFound))))
    // Otherwise the stored user is attached, without its password.
    ensures r.Ok? <==> Present(cookie) && Jwt.Verify(cookie.value, env.jwtSecret, now).Ok? &&
                       FindById(users, cookie.value.claims.userId).Some?
    ensures r.Ok? ==> r.value == PublicView(FindById(users, cookie.value.claims.userId).value)
    // The `!decoded` branch is dead: the verifier throws instead of returning nothing.
    ensures r.Err? ==> r.error.App? && r.error.err.statusCode == 401 && r.error.err.message != InvalidToken
  {
    if !Present(cookie) then Err(App(Unauthorized(Some(NoToken))))
    else
      match JwtUtil.VerifyToken(cookie.value, env.jwtSecret, now)
      case Err(e) => Err(e)
      case Ok(decoded) =>
        match FindById(users, decoded.userId)
        case None => Err(App(Unauthorized(Some(UserNotFound))))
        case Some(user) => Ok(PublicView(user))
  }

  /** The cookie `generateToken` set for a stored user lets that user through
      for the whole day the token lives, as that very user. */
  lemma IssuedCookieAdmits(users: UserStore, i: nat, env: Env, issuedAt: int, now: int)
    requires Wf(users) && i < |users|
    requires env.jwtSecret != "" && now < issuedAt + Jwt.OneDay
    ensures JwtUtil.GenerateToken(users[i].id, env, issuedAt).Ok?
    ensures var token := JwtUtil.GenerateToken(users[i].id, env, issuedAt).value.token;
      ProtectRoute(users, Some(token), env, now) == Ok(PublicView(users[i]))
  {
    FindStored(users, i);
  }

  /** Once the day is over the same cookie is refused. */
  lemma IssuedCookieExpires(users: UserStore, userId: string, env: Env, issuedAt: int, now: int)
    requires env.jwtSecret != "" && now >= issuedAt + Jwt.OneDay
    ensures JwtUtil.GenerateToken(userId, env, issuedAt).Ok?
    ensures var token := JwtUtil.GenerateToken(userId, env, issuedAt).value.token;
      ProtectRoute(users, Some(token), env, now) == Err(App(Unauthorized(Some(JwtUtil.VerificationFailed))))
  {
  }
}
