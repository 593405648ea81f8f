/** What a route handler produces: a JSON success body, or an error handed
    to `next(error)` for the error handler to answer. */
module Http {
  import opened Wrappers
  import opened Errors
  import opened Cookies
  import opened UserModel
  import opened MessageModel

  /** The `data` member of a success body. */
  datatype Payload =
    | NoData
    | UserData(user: UserView)
    | UserList(users: seq<UserView>)
    | ProfileData(profile: Profile)
    | MessageData(message: Message)
    | MessageList(messages: seq<Message>)

  /** `res.status(status).json({ success: true, status, message, data })`. */
  datatype Response = Response(status: int, message: string, data: Payload)

  /** `Ok` is a response sent by the handler, `Err` an error passed to `next`. */
  type Outcome = Result<Response, Thrown>

  /** The user collection after a handler ran, the cookies it set or
      cleared on the response, and its outcome. */
  datatype Reply = Reply(users: UserStore, cookies: seq<CookieOp>, outcome: Outcome)
}
