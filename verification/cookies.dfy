/** Cookie operations recorded on a response (`res.cookie`, `res.clearCookie`). */
module Cookies {
  import opened Wrappers
  import Jwt

  /** `SameSite` attribute values. */
  datatype SameSite = Lax | Strict | SameSiteNone

  /** The options object; `maxAge` is in milliseconds. */
  datatype CookieOptions = CookieOptions(maxAge: Option<int>, httpOnly: bool, sameSite: SameSite, secure: bool)

  datatype CookieOp =
    | SetCookie(name: string, value: Jwt.Token, options: CookieOptions)
    | ClearCookie(name: string, options: CookieOptions)

  /** The session cookie's name. */
  const SessionCookie := "jwt"
}
