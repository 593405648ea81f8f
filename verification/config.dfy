/** The deployment settings the modelled code reads. */
module Config {
  import opened Wrappers

  /** `nodeEnv` is `process.env.NODE_ENV` (read by the token utility and the
      error handler); `production` is the `PRODUCTION` flag the logout
      handler imports; `jwtSecret` is `JWT_SECRET` ("" when unset). */
  datatype Env = Env(nodeEnv: Option<string>, production: bool, jwtSecret: string)
}
