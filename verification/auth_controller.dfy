/** The authentication endpoints (backend/src/controllers/auth.controller.ts):
    signup, login, logout and the session check, each a function from the
    user collection and the request to a `Reply`. */
module AuthController {
  import opened Wrappers
  import opened Errors
  import opened Crypto
  import opened Config
  import opened Cookies
  import opened UserModel
  import opened Schemas
  import opened Http
  import Jwt
  import JwtUtil
  import Validation
  import AuthMiddleware
  import ErrorHandler

  const EmailExists := "Email already exists"
  const InvalidCredentials := "Invalid credentials"
  const Registered := "User registered successfully"
  const LoggedOut := "Logged out successfully"
  const Authenticated := "User authenticated successfully"

  /** The cookie `generateToken` sets for `userId` at time `now`. */
  function SessionCookieFor(userId: string, env: Env, now: int): (c: CookieOp)
    requires env.jwtSecret != ""
    ensures c.SetCookie? && JwtUtil.GenerateToken(userId, env, now) == Ok(JwtUtil.Issued(c.value, c))
  {
    var token := Jwt.Signed(Jwt.Claims(userId, now, now + Jwt.OneDay), env.jwtSecret);
    SetCookie(SessionCookie, token, JwtUtil.IssuedCookieOptions(env.nodeEnv))
  }

  /** The user a successful signup stores: the new document after the
      pre-save hook hashed its password. */
  function Registrant(input: SignupInput, newId: string, salt: nat): (u: User)
    ensures u.id == newId && u.email == input.email && u.fullName == input.fullName
    ensures u.profilePic == DefaultProfilePic
    ensures Compare(input.password, u.password)
  {
    HashAcceptsItsPassword(input.password, salt);
    User(newId, input.email, input.fullName, Hash(Plain(input.password), salt), DefaultProfilePic)
  }

  /** `signup` on a validated body. `newId` is the fresh `_id`, `now` the
      clock and `salt` the bcrypt salt. */
  function Signup(users: UserStore, input: SignupInput, env: Env, now: int, newId: string, salt: nat): (r: Reply)
    // A registered email is refused before anything is created or issued.
    ensures FindByEmail(users, input.email).Some? ==>
      r == Reply(users, [], Err(App(BadRequest(Some(EmailExists), None, None))))
    // The token is issued before the save, so a failing save still sets the cookie.
    ensures FindByEmail(users, input.email).None? && env.jwtSecret != "" ==>
      r.cookies == [SessionCookieFor(newId, env, now)]
    ensures env.jwtSecret == "" || FindByEmail(users, input.email).Some? ==> r.cookies == []
    // Nothing is stored unless the whole signup succeeds, and then exactly one user.
    ensures r.outcome.Err? ==> r.users == users
    ensures r.outcome.Ok? ==> r.users == users + [Registrant(input, newId, salt)]
    ensures r.outcome.Ok? ==> r.outcome.value == Response(201, Registered, UserData(PrivateView(Registrant(input, newId, salt))))
    ensures r.outcome.Ok? <==>
      FindByEmail(users, input.email).None? && env.jwtSecret != "" &&
      Save(users, NewUser(newId, input.fullName, input.email, input.password), true, true, salt).Ok?
  {
    SignupAcross(users, users, input, env, now, newId, salt)
  }

  /** `signup` when other requests run while it awaits: the `findOne` at the
      start sees the collection `checked`, and the `save` at the end writes
      into the collection `current` as it is by then. */
  function SignupAcross(checked: UserStore, current: UserStore, input: SignupInput, env: Env, now: int,
                        newId: string, salt: nat): (r: Reply)
    ensures FindByEmail(checked, input.email).Some? ==>
      r == Reply(current, [], Err(App(BadRequest(Some(EmailExists), None, None))))
    ensures FindByEmail(checked, input.email).None? && env.jwtSecret != "" ==>
      r.cookies == [SessionCookieFor(newId, env, now)]
    ensures env.jwtSecret == "" || FindByEmail(checked, input.email).Some? ==> r.cookies == []
    ensures r.outcome.Err? ==> r.users == current
    ensures r.outcome.Ok? ==> r.users == current + [Registrant(input, newId, salt)]
    ensures r.outcome.Ok? ==> r.outcome.value == Response(201, Registered, UserData(PrivateView(Registrant(input, newId, salt))))
    ensures r.outcome.Ok? <==>
      FindByEmail(checked, input.email).None? && env.jwtSecret != "" &&
      Save(current, NewUser(newId, input.fullName, input.email, input.password), true, true, salt).Ok?
    // A failing save is passed on as it is.
    ensures FindByEmail(checked, input.email).None? && env.jwtSecret != "" &&
            Save(current, NewUser(newId, input.fullName, input.email, input.password), true, true, salt).Err? ==>
      r.outcome == Err(Save(current, NewUser(newId, input.fullName, input.email, input.password), true, true, salt).error)
  {
    if FindByEmail(checked, input.email).Some? then
      Reply(current, [], Err(App(BadRequest(Some(EmailExists), None, None))))
    else
      var doc := NewUser(newId, input.fullName, input.email, input.password);
      match JwtUtil.GenerateToken(doc.id, env, now)
      case Err(e) => Reply(current, [], Err(e))
      case Ok(issued) =>
        match Save(current, doc, true, true, salt)
        case Err(e) => Reply(current, [issued.cookie], Err(e))
        case Ok(saved) => Reply(saved.store, [issued.cookie], Ok(Response(201, Registered, UserData(PrivateView(saved.user)))))
  }

  /** Two signups with one email that overlap: both `findOne` calls see the
      collection before either save. The first save lands; the second is
      refused by the unique email index, so that request is answered with
      the duplicate-key 409, not the 400 of a signup that runs after the
      first, and it still carries a session cookie. */
  lemma RacingSignups(users: UserStore, first: SignupInput, second: SignupInput, env: Env, now: int,
                      id1: string, id2: string, salt1: nat, salt2: nat, stack: string)
    requires Wf(users) && env.jwtSecret != ""
    requires Signup(users, first, env, now, id1, salt1).outcome.Ok?
    requires second.email == first.email && second.fullName != "" && |second.password| >= MinPasswordLength
    requires id2 != id1 && FindById(users, id2).None?
    ensures var after := Signup(users, first, env, now, id1, salt1).users;
      var r := SignupAcross(users, after, second, env, now, id2, salt2);
      && r.users == after
      && r.cookies == [SessionCookieFor(id2, env, now)]
      && r.outcome == Err(DuplicateKey([("email", first.email)]))
      && ErrorHandler.Handle(r.outcome.error, stack, env.nodeEnv).status == 409
  {
    var after := Signup(users, first, env, now, id1, salt1).users;
    var u := Registrant(first, id1, salt1);
    assert after == users + [u];
    assert after[|users|] == u;
    assert FindById(after, id2).None?;
    assert FindByEmail(after, first.email).Some?;
    ErrorHandler.DuplicateKeyEnvelope([("email", first.email)], stack, env.nodeEnv);
  }

  /** A signup that passes validation, uses a new email and a new id is
      stored and answered with 201. */
  lemma SignupSucceeds(users: UserStore, input: SignupInput, env: Env, now: int, newId: string, salt: nat)
    requires Wf(users) && env.jwtSecret != ""
    requires |input.fullName| >= 3 && input.email != "" && |input.password| >= MinPasswordLength
    requires FindByEmail(users, input.email).None? && FindById(users, newId).None?
    ensures Signup(users, input, env, now, newId, salt).outcome.Ok?
    ensures Wf(Signup(users, input, env, now, newId, salt).users)
  {
    var doc := NewUser(newId, input.fullName, input.email, input.password);
    assert PathErrors(doc) == [];
    assert !EmailTakenByOther(users, doc.email, doc.id);
  }

  /** `login` on a validated body. */
  function Login(users: UserStore, input: LoginInput, env: Env, now: int): (r: Reply)
    ensures r.users == users
    // An unknown email and a wrong password get the very same answer.
    ensures FindByEmail(users, input.email).None? || !Compare(input.password, FindByEmail(users, input.email).value.password) ==>
      r == Reply(users, [], Err(App(Unauthorized(Some(InvalidCredentials)))))
    ensures r.outcome.Ok? <==>
      && FindByEmail(users, input.email).Some?
      && Compare(input.password, FindByEmail(users, input.email).value.password)
      && env.jwtSecret != ""
    // Success welcomes the user by name, with the session cookie for its id.
    ensures r.outcome.Ok? ==>
      var u := FindByEmail(users, input.email).value;
      && r.outcome.value == Response(200, "Welcome " + u.fullName, UserData(PrivateView(u)))
      && r.cookies == [SessionCookieFor(u.id, env, now)]
  {
    match FindByEmail(users, input.email)
    case None => Reply(users, [], Err(App(Unauthorized(Some(InvalidCredentials)))))
    case Some(user) =>
      if !ComparePassword(user, input.password, user.password) then
        Reply(users, [], Err(App(Unauthorized(Some(InvalidCredentials)))))
      else
        match JwtUtil.GenerateToken(user.id, env, now)
        case Err(e) => Reply(users, [], Err(e))
        case Ok(issued) => Reply(users, [issued.cookie], Ok(Response(200, "Welcome " + user.fullName, UserData(PrivateView(user)))))
  }

  /** After a successful signup the same email and password log in. */
  lemma SignupThenLogin(users: UserStore, input: SignupInput, env: Env, now: int, later: int, newId: string, salt: nat)
    requires Wf(users) && env.jwtSecret != ""
    requires Signup(users, input, env, now, newId, salt).outcome.Ok?
    ensures var after := Signup(users, input, env, now, newId, salt).users;
      var r := Login(after, LoginInput(input.email, input.password), env, later);
      && r.outcome.Ok?
      && r.outcome.value.message == "Welcome " + input.fullName
      && r.cookies == [SessionCookieFor(newId, env, later)]
  {
    var u := Registrant(input, newId, salt);
    var after := users + [u];
    assert after[|users|] == u;
    assert Wf(after);
    FindStored(after, |users|);
  }

  /** Signing up twice with one email stores one user: the second attempt is
      a 400 that changes nothing and issues nothing. */
  lemma SignupTwice(users: UserStore, first: SignupInput, second: SignupInput, env: Env, now: int,
                    id1: string, id2: string, salt1: nat, salt2: nat)
    requires Signup(users, first, env, now, id1, salt1).outcome.Ok? && second.email == first.email
    ensures var after := Signup(users, first, env, now, id1, salt1).users;
      Signup(after, second, env, now, id2, salt2) == Reply(after, [], Err(App(BadRequest(Some(EmailExists), None, None))))
  {
    var after := users + [Registrant(first, id1, salt1)];
    assert after[|users|].email == second.email;
  }

  /** The options `logout` clears the cookie with. */
  function LogoutCookieOptions(production: bool): (o: CookieOptions)
    ensures o.httpOnly && o.maxAge.None?
    ensures o.sameSite == (if production then SameSiteNone else Lax)
    ensures o.secure <==> production
  {
    CookieOptions(None, true, if production then SameSiteNone else Lax, production)
  }

  /** `logout`: always clears `jwt` and answers 200, whatever the session. */
  function Logout(users: UserStore, env: Env): (r: Reply)
    ensures r.users == users
    ensures r.cookies == [ClearCookie(SessionCookie, LogoutCookieOptions(env.production))]
    ensures r.outcome == Ok(Response(200, LoggedOut, NoData))
  {
    Reply(users, [ClearCookie(SessionCookie, LogoutCookieOptions(env.production))], Ok(Response(200, LoggedOut, NoData)))
  }

  /** Outside production the cookie is cleared with `SameSite=Lax` although
      it was issued with `SameSite=None`; and when `PRODUCTION` and
      `NODE_ENV` disagree, so does `Secure`. */
  lemma LogoutAttributesDiffer(env: Env)
    ensures !env.production ==>
      LogoutCookieOptions(env.production).sameSite != JwtUtil.IssuedCookieOptions(env.nodeEnv).sameSite
    ensures LogoutCookieOptions(env.production).secure != JwtUtil.IssuedCookieOptions(env.nodeEnv).secure <==>
      env.production != (env.nodeEnv == Some("production"))
  {
  }

  /** `checkAuth`: answers with the user `protectRoute` attached, as is. */
  function CheckAuth(users: UserStore, reqUser: UserView): (r: Reply)
    ensures r.users == users && r.cookies == []
    ensures r.outcome.Ok? && r.outcome.value.status == 200 && r.outcome.value.message == Authenticated
    ensures r.outcome.value.data == UserData(reqUser)
  {
    Reply(users, [], Ok(Response(200, Authenticated, UserData(reqUser))))
  }

  /** The session end to end: the cookie a signup sets passes `protectRoute`
      within the day, and `checkAuth` then answers with the new user
      without its password. */
  lemma SignupSessionChecks(users: UserStore, input: SignupInput, env: Env, now: int, later: int, newId: string, salt: nat)
    requires Wf(users) && env.jwtSecret != "" && later < now + Jwt.OneDay
    requires |input.fullName| >= 3 && input.email != "" && |input.password| >= MinPasswordLength
    requires FindByEmail(users, input.email).None? && FindById(users, newId).None?
    ensures Signup(users, input, env, now, newId, salt).outcome.Ok?
    ensures var r := Signup(users, input, env, now, newId, salt);
      var guard := AuthMiddleware.ProtectRoute(r.users, Some(r.cookies[0].value), env, later);
      && guard.Ok?
      && guard.value == PublicView(Registrant(input, newId, salt))
      && guard.value.password.None?
      && CheckAuth(r.users, guard.value).outcome.value.data == UserData(PublicView(Registrant(input, newId, salt)))
  {
    SignupSucceeds(users, input, env, now, newId, salt);
    var u := Registrant(input, newId, salt);
    var after := users + [u];
    assert after[|users|] == u;
    AuthMiddleware.IssuedCookieAdmits(after, |users|, env, now, later);
  }

  /** `validate(signupSchema)` in front of `signup`: an invalid body is a
      422 that stores nothing and issues nothing. */
  function SignupRoute(users: UserStore, body: Body, isEmail: string -> bool, env: Env, now: int, newId: string, salt: nat): (r: Reply)
    ensures !SignupAcceptable(body, isEmail) ==>
      r.users == users && r.cookies == [] && r.outcome.Err? && r.outcome.error.App? &&
      r.outcome.error.err.statusCode == 422
    ensures SignupAcceptable(body, isEmail) ==>
      r == Signup(users, SignupInput(body["fullName"].s, body["email"].s, body["password"].s, OptStr(body, "profilePic")), env, now, newId, salt)
  {
    var parsed := ParseSignup(body, isEmail);
    match Validation.Validate(parsed)
    case Fail(e) => Reply(users, [], Err(App(e)))
    case Continue => Signup(users, parsed.value, env, now, newId, salt)
  }

  /** `validate(loginSchema)` in front of `login`. */
  function LoginRoute(users: UserStore, body: Body, isEmail: string -> bool, env: Env, now: int): (r: Reply)
    ensures r.users == users
    ensures !LoginAcceptable(body, isEmail) ==>
      r.cookies == [] && r.outcome.Err? && r.outcome.error.App? && r.outcome.error.err.statusCode == 422
    ensures LoginAcceptable(body, isEmail) ==>
      r == Login(users, LoginInput(body["email"].s, body["password"].s), env, now)
  {
    var parsed := ParseLogin(body, isEmail);
    match Validation.Validate(parsed)
    case Fail(e) => Reply(users, [], Err(App(e)))
    case Continue => Login(users, parsed.value, env, now)
  }
}
