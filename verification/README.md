# Chat application backend — a Dafny model

This project models the decision logic of the backend of a real-time chat
application. The backend is an Express server with Mongoose and socket.io.
Its core is:

- the **presence registry**: the map from user id to socket id that the
  socket server keeps, and the `getOnlineUsers` broadcasts it emits;
- the **messaging endpoints**: the sidebar's user list, one conversation,
  and sending a message. Sending uploads the image, then stores the message,
  then notifies the receiver if it is online;
- **authentication**: signup, login, logout, the session check, the
  `protectRoute` middleware, token issue and verification, the user model's
  validators and pre-save hook, and the profile update;
- the **error taxonomy**: `AppError` and its factories, the global error
  handler that turns anything thrown into the JSON error envelope, and the
  request-validation middleware that formats schema failures;
- **routing**: the `@Route` decorator's method → path → handlers table, the
  mounting of the four controllers under `/api/v1` in registration order,
  first-match dispatch, the `/api/v1/*` catch-all 404 and the error handler
  installed last.

The stores are immutable values. The user collection is an insertion-ordered
sequence with unique ids and emails, and messages are a sequence in store
order. JavaScript objects and `Map`s whose key order shows (the presence
registry, the route table) are ordered association lists. Every operation is
a pure function returning either a response or the error passed to `next`.

Things the backend gets from outside are parameters:

- the clock;
- bcrypt salts;
- new ObjectIds;
- the image host, which may refuse an upload;
- `NODE_ENV`, `PRODUCTION` and `JWT_SECRET`;
- zod's e-mail predicate.

bcrypt and jsonwebtoken are transparent stand-ins:

- A hash records its salt and input. `compare` reads what bcrypt's key
  schedule reads: the UTF-8 bytes of a password followed by a NUL byte,
  repeated to 72 bytes. It accepts a candidate exactly when those 72 bytes
  are the hashed password's. For passwords under 72 bytes without NUL
  characters that means exactly the hashed plaintext; longer passwords that
  share their first 72 bytes are accepted for each other
  (`Crypto.LongPasswordsCollide`).
- A signed token records its claims and key. `verify` accepts it only with
  that key and before its expiry.

The properties that libraries are trusted for are proved about these
stand-ins.

Modules, one per source component:

- `Wrappers`, `OrderedMaps` and `Text` hold shared helpers.
- `Errors` (error.util.ts) and `ErrorHandler` (error.middleware.ts).
- `Schemas` (the zod schemas and `error.format()`) and `Validation`
  (validation.middleware.ts).
- `Crypto`, `Jwt`, `Config`, `Cookies` and `JwtUtil` (jwt.util.ts).
- `UserModel` and `MessageModel`.
- `Presence` (socket.ts) and `Http`, the response shapes.
- `AuthMiddleware`, `AuthController`, `UserController` and
  `MessageController`.
- `Routes` (route.decorator.ts and the routing part of app.ts).
- `Application`, the four concrete controllers mounted as app.ts mounts them.

Behaviours of the code worth knowing:

- Signing up with an e-mail that is already registered is a 400 `badRequest`
  ('Email already exists'). The error handler's duplicate-key 409 is reached
  on this path only when two signups with one e-mail overlap, so that both
  pass the lookup before either saves (`AuthController.RacingSignups`).
- The message schema's text-or-image refinement reports its issue at the
  object's root, not at a field. The validation middleware skips the root
  `_errors` key, so a message with neither text nor image is a 422 whose
  errors record is empty (`Validation.EmptyMessageLosesItsReason`).
- `disconnect` deletes the registry entry of its user unconditionally, even
  when that entry already holds a newer socket (`Presence.StaleDisconnect`).
- The session cookie is always issued with `SameSite=None`. `logout` clears
  it with `SameSite=Lax` unless `PRODUCTION` is set
  (`AuthController.LogoutAttributesDiffer`).
- `signup` sets the cookie before the document is saved, so a failing save
  still leaves a cookie on the response.
- The presence registry is a plain object, so a client connecting with the
  user id `__proto__` assigns through the inherited prototype setter. That
  registers nothing, and the user is never listed online
  (`Presence.ProtoUserNeverListed`).

## Model

| member | source | states |
|---|---|---|
| Presence.Connect | backend/src/config/socket.ts:21-28 | a truthy user id other than `__proto__` now maps to the new socket, overwriting an earlier socket of that user, and every other user's entry is as before; a missing or empty id, or `__proto__`, leaves the registry as it was; either way the socket is recorded as open and exactly one broadcast of the current key list is appended |
| Presence.Disconnect | backend/src/config/socket.ts:30-33 | closing a known socket removes the entry under its user's key, whatever socket that entry holds, leaves every other user's entry alone and appends one broadcast of the remaining keys; an unknown socket changes nothing |
| Presence.KeyOf | backend/src/config/socket.ts:24-32 | the property key `delete` uses is the user id the socket connected with |
| Presence.ReceiverSocket | backend/src/config/socket.ts:14-16 | a socket is returned exactly when the user is a key of the registry, and it is the socket stored under that user; under the registry invariant it is an open socket that connected as that user |
| Presence.ConnectKeepsInv | backend/src/config/socket.ts:19-28 | connecting keeps the invariant: no user twice, every entry names an open socket that connected with that user id, and `__proto__` is never a key |
| Presence.ProtoUserNeverListed | backend/src/config/socket.ts:24-28 | connecting as `__proto__` registers nothing and is never listed: no key is added and the broadcast is the earlier key list |
| Presence.DisconnectKeepsInv | backend/src/config/socket.ts:30-34 | disconnecting keeps the same invariant |
| Presence.BroadcastHasNoDuplicates | backend/src/config/socket.ts:19-28 | the broadcast list never names a user twice, however many sockets it opened |
| Presence.StaleDisconnect | backend/src/config/socket.ts:26-32 | after a user that can be registered connects twice, closing the first socket takes the user offline although the second socket is still open and registered for it |
| Presence.LastSocketLeaves | backend/src/config/socket.ts:26-32 | closing the socket a user registered last takes the user offline |
| Presence.PutGetAll | backend/src/config/socket.ts:26 | an assignment changes the lookup of its own key only |
| Presence.RemoveGetAll | backend/src/config/socket.ts:32 | a delete empties the lookup of its own key only |
| OrderedMaps.PutKeys | backend/src/config/socket.ts:26-28 | assigning an existing key keeps the key order; a new key goes last |
| OrderedMaps.RemoveKeys | backend/src/config/socket.ts:32-33 | deleting a key removes it from the key list and keeps the others in order |
| OrderedMaps.PutIsUpdate | backend/src/decorators/route.decorator.ts:41-44 | as a finite map, an ordered put is a map update |
| OrderedMaps.RemoveIsRemoval | backend/src/config/socket.ts:32 | as a finite map, an ordered delete is a key removal |
| OrderedMaps.FromEntriesLast | backend/src/middlewares/error.middleware.ts:23-30 | `Object.fromEntries` keeps the last value of each key |
| MessageModel.Conversation | backend/src/controllers/message.controller.ts:68-73 | a message is in the result exactly when it is stored and goes from the caller to the peer or from the peer to the caller |
| MessageModel.ConversationCounts | backend/src/controllers/message.controller.ts:68-73 | each message occurs in the conversation as often as in the store if it belongs to the conversation, and not at all otherwise |
| MessageModel.ConversationSymmetric | backend/src/controllers/message.controller.ts:69-72 | swapping the caller and the peer gives the same list |
| MessageModel.ConversationAppend | backend/src/controllers/message.controller.ts:68-73 | the filter keeps store order: the conversation of a concatenation is the concatenation of the conversations |
| MessageModel.Create | backend/src/models/message.model.ts:14-23 | creation succeeds exactly when a sender is given, and appends the new message with the given fields; otherwise it is the required-path validation error |
| MessageController.Others | backend/src/controllers/message.controller.ts:32-33 | a view is listed exactly when it is the password-free view of a stored user other than the caller |
| MessageController.OthersAppend | backend/src/controllers/message.controller.ts:32-33 | the list keeps store order: the users of a concatenated collection are those of its first part followed by those of its second |
| MessageController.OthersCount | backend/src/controllers/message.controller.ts:33 | in a well-formed collection the list is one shorter than the collection exactly when the caller is stored |
| MessageController.GetUsersForSidebar | backend/src/controllers/message.controller.ts:29-40 | always 200 'Get user successfully', and no listed user is the caller or carries a password |
| MessageController.GetMessages | backend/src/controllers/message.controller.ts:59-80 | without a caller id it is 401 'Unauthorized access'; otherwise 200 with exactly the messages between the caller and the peer, in store order (`MessageModel.Conversation`) |
| MessageController.GetMessagesSymmetric | backend/src/controllers/message.controller.ts:68-73 | both sides of a conversation get the same answer |
| MessageController.Notify | backend/src/controllers/message.controller.ts:110-113 | at most one `newMessage`, sent exactly when the receiver has a truthy socket id, and addressed to that socket |
| MessageController.SendMessage | backend/src/controllers/message.controller.ts:99-120 | a refused upload aborts with nothing stored or emitted; success needs a sender; on success the message is appended with the text as sent and the uploaded URL, the notification follows the store, and the answer is 201 with the stored message; users and registry never change |
| MessageController.SendThenList | backend/src/controllers/message.controller.ts:107-119 | after a successful send, both sides' conversation is the earlier conversation followed by the new message |
| MessageController.OnlineReceiverNotified | backend/src/controllers/message.controller.ts:110-113 | a receiver registered with a non-empty socket gets exactly one notification, to that socket, carrying the stored message |
| MessageController.SendMessageRoute | backend/src/controllers/message.controller.ts:98 | a body failing the message schema is a 422 that changes nothing; a valid one reaches the handler with its text and image |
| Schemas.ParseSignup | backend/src/schemas/auth.schema.ts:3-8 | valid exactly when the body has string fields meeting the rules (name of at least 3, e-mail format, password of at least 6, optional string picture), and then yields those fields; each broken rule is reported with its message |
| Schemas.ParseLogin | backend/src/schemas/auth.schema.ts:10-13 | valid exactly when e-mail and password are strings meeting their rules; each broken rule is reported |
| Schemas.ParseUpdateUser | backend/src/schemas/user.schema.ts:3-7 | valid exactly when `profilePic` is a string, yielding it |
| Schemas.ParseMessage | backend/src/schemas/message.schema.ts:3-10 | a body whose text and image are absent-or-string is valid exactly when one of them is truthy; otherwise the refinement message is reported |
| Schemas.CheckIssuesEmptyIff | backend/src/schemas/auth.schema.ts:4-6 | a string field has no issue exactly when it passes every check of its rule |
| Schemas.ObjectIssuesEmptyIff | backend/src/schemas/auth.schema.ts:3-8 | an object has no issue exactly when every field rule holds |
| Schemas.FailingCheckReported | backend/src/schemas/auth.schema.ts:4-12 | every failing check of a string field is reported with its own message |
| Schemas.FieldIssuesAbout | backend/src/schemas/auth.schema.ts:3-8 | every issue of a field names that field |
| Schemas.GroupGet | backend/src/middlewares/validation.middleware.ts:16 | `error.format()` lists, under each field, exactly that field's messages in order, and nothing for an unmentioned field |
| Schemas.GroupWf | backend/src/middlewares/validation.middleware.ts:16 | the formatted object never repeats a field |
| Validation.Describe | backend/src/middlewares/validation.middleware.ts:18 | a field's text is its messages joined with ', ', or 'Invalid' when there are none or they join to the empty string |
| Validation.FormatErrorsKeys | backend/src/middlewares/validation.middleware.ts:16-21 | the record has exactly the entries' keys other than `_errors` |
| Validation.FormatErrorsLast | backend/src/middlewares/validation.middleware.ts:16-21 | a key's text comes from its last entry |
| Validation.Validate | backend/src/middlewares/validation.middleware.ts:10-27 | a valid parse continues; an invalid one fails with an operational 422 'Validation failed' carrying the formatted record |
| Validation.FieldErrorsOfIssues | backend/src/middlewares/validation.middleware.ts:16-23 | a key is in the 422 record exactly when it is not the root and some issue is about it, and its text describes that field's messages |
| Validation.EmptyMessageLosesItsReason | backend/src/middlewares/validation.middleware.ts:17 | a message with neither text nor image fails with an empty errors record |
| Text.JoinEmptyIff | backend/src/middlewares/validation.middleware.ts:18 | with a non-empty separator a join is empty exactly when there is nothing to join or only one empty part |
| Text.JoinSnoc | backend/src/middlewares/validation.middleware.ts:18 | joining one more part appends the separator and that part |
| Errors.NewAppError | backend/src/utils/error.util.ts:7-19 | the error keeps message, status, code and errors, and is operational unless told otherwise |
| Errors.FactoryContract | backend/src/utils/error.util.ts:22-52 | each factory gives its status and default message; only `internalServerError` and `databaseError` are non-operational, and exactly those are the 500s; only `badRequest` keeps a code; only `badRequest` and `validationError` carry errors |
| ErrorHandler.Classify | backend/src/middlewares/error.middleware.ts:8-40 | an AppError passes its status, message and code through, and keeps its errors only at 422; library errors are recognised by name in source order; anything else is 500 'Something went wrong' |
| ErrorHandler.Handle | backend/src/middlewares/error.middleware.ts:42-52 | the envelope is unsuccessful with the classified status and message; `errorCode` appears exactly when the code is non-zero; `errors` when present; `stack` exactly in development |
| ErrorHandler.DuplicateEntries | backend/src/middlewares/error.middleware.ts:29-31 | each duplicated key keeps its place and is described as "key with value 'v' already exists" |
| ErrorHandler.DuplicateKeyEnvelope | backend/src/middlewares/error.middleware.ts:26-31 | a duplicate-key failure is a 409 carrying its errors record |
| ErrorHandler.DuplicateErrorsContent | backend/src/middlewares/error.middleware.ts:29-31 | the record names exactly the duplicated keys, each with its message |
| ErrorHandler.FactoryEnvelope | backend/src/middlewares/error.middleware.ts:13-17 | every factory's error reaches the client with the factory's status and message, and with an errors record exactly for `validationError` |
| Crypto.Hash | backend/src/models/user.model.ts:44-45 | a hash uses 12 rounds and differs from what it hashes |
| Crypto.CompareHash | backend/src/models/user.model.ts:65-67 | a hash of a password accepts exactly the candidates whose first 72 key bytes are the password's, whatever the salt |
| Crypto.HashAcceptsItsPassword | backend/src/models/user.model.ts:44-45 | a hash accepts the password it was computed from |
| Crypto.ShortPasswordsExact | backend/src/models/user.model.ts:65-67 | for NUL-free passwords under 72 bytes, a hash accepts its password and nothing else |
| Crypto.LongPasswordsCollide | backend/src/models/user.model.ts:65-67 | once a password's first 72 bytes are fixed, any ending is accepted for any other, and different endings give different passwords |
| Crypto.Utf8Injective | backend/src/models/user.model.ts:45 | the byte encoding the hash reads never maps two passwords to the same bytes |
| Crypto.Utf8Append | backend/src/models/user.model.ts:45 | the encoding of a concatenation is the concatenation of the encodings |
| Crypto.ComparePlain | backend/src/models/user.model.ts:65-67 | a stored plaintext never matches |
| Jwt.Sign | backend/src/utils/jwt.util.ts:7-9 | signing succeeds exactly with a non-empty key and yields a token for the user id, issued now and expiring `expiresIn` seconds later |
| Jwt.Verify | backend/src/utils/jwt.util.ts:24 | a token verifies exactly when it was signed with the same non-empty key and has not expired, yielding its claims; a right-key token past its expiry fails as expired |
| Jwt.SignVerify | backend/src/utils/jwt.util.ts:7-24 | a freshly signed token verifies with its user id throughout its lifetime and is expired at its end |
| JwtUtil.IssuedCookieOptions | backend/src/utils/jwt.util.ts:11-16 | the cookie lives 86400000 ms, is HTTP-only, always `SameSite=None`, and secure exactly when `NODE_ENV` is production |
| JwtUtil.GenerateToken | backend/src/utils/jwt.util.ts:6-19 | fails exactly without a secret; otherwise the cookie carries the very token returned, whose claims are the user id and a one-day expiry |
| JwtUtil.VerifyToken | backend/src/utils/jwt.util.ts:21-30 | succeeds exactly when the token verifies, yielding its claims; every failure becomes 401 'Token verification failed' |
| JwtUtil.CookieLivesAsLongAsToken | backend/src/utils/jwt.util.ts:8-12 | the cookie's maximum age is the token's lifetime in milliseconds |
| JwtUtil.GenerateThenVerify | backend/src/utils/jwt.util.ts:7-26 | a generated token verifies within its day and yields the user id it was generated for |
| AuthMiddleware.ProtectRoute | backend/src/middlewares/auth.middleware.ts:18-49 | no token is 401 'No token provided'; a token that fails verification is the 401 from `verifyToken`; a valid token of an unknown user is 401 'User not found'; otherwise the request goes on with the stored user's password-free view; every failure is a 401 and none is 'Invalid token' |
| AuthMiddleware.IssuedCookieAdmits | backend/src/middlewares/auth.middleware.ts:28-45 | the cookie issued for a stored user lets that user through for a day |
| AuthMiddleware.IssuedCookieExpires | backend/src/middlewares/auth.middleware.ts:28-47 | after the day the same cookie is refused with 401 'Token verification failed' |
| UserModel.PathErrors | backend/src/models/user.model.ts:14-34 | a document passes the validators exactly when e-mail and name are non-empty and a plaintext password has at least 6 characters |
| UserModel.PreSave | backend/src/models/user.model.ts:40-50 | the password is rehashed exactly when it was modified, and then differs from before |
| UserModel.Save | backend/src/models/user.model.ts:14-50 | a save succeeds exactly when the document validates, its e-mail is not another user's, and its id is new for an insert or stored for an update; it stores the pre-saved document and keeps the collection well formed |
| UserModel.InsertKeepsWf | backend/src/models/user.model.ts:14-20 | inserting a valid user with a new id and e-mail keeps ids and e-mails unique |
| UserModel.ReplaceKeepsWf | backend/src/models/user.model.ts:14-20 | replacing a user by a valid document whose e-mail no one else has keeps ids and e-mails unique |
| UserModel.ResaveUnchanged | backend/src/models/user.model.ts:40-41 | re-saving an unmodified stored user changes nothing, hash included |
| UserModel.FindStored | backend/src/models/user.model.ts:16-20 | in a well-formed collection a stored user is found by its own id and by its own e-mail |
| UserModel.FindByEmail | backend/src/controllers/auth.controller.ts:34 | the user found has that e-mail; none is found exactly when no stored user has it |
| UserModel.FindById | backend/src/middlewares/auth.middleware.ts:35 | the user found has that id; none is found exactly when no stored user has it |
| UserModel.PublicView | backend/src/models/user.model.ts:25-30 | a default selection has every field but the password |
| UserModel.NewUser | backend/src/models/user.model.ts:31-34 | a new document has the plaintext password and the default empty picture |
| UserModel.HashAll | backend/src/models/user.model.ts:53-63 | the bulk-insert hook hashes every document's password and changes nothing else |
| UserModel.HashAllAcceptsPlaintexts | backend/src/models/user.model.ts:53-63 | after the bulk-insert hook, each document accepts the plaintext it was inserted with, whatever salt its position drew, and every other field is as inserted |
| UserModel.ComparePassword | backend/src/models/user.model.ts:65-67 | the candidate is compared against the document's own stored password |
| UserController.ProfileOf | backend/src/controllers/user.controller.ts:85-94 | the answer has exactly the id, name, e-mail and picture |
| UserController.UploadedUrl | backend/src/controllers/user.controller.ts:69-72 | an empty picture uploads nothing; a refused upload fails; otherwise the URL is the host's |
| UserController.UpdateProfile | backend/src/controllers/user.controller.ts:59-99 | without a caller it is 401 'Unauthorized access'; a refused upload aborts; a missing user is 404 'User not found'; success stores the uploaded URL as the caller's only change and answers 200 with the profile; nothing changes on failure |
| UserController.UpdateTouchesOnlyPicture | backend/src/controllers/user.controller.ts:75-79 | a successful update changes only the caller's picture and keeps the collection well formed |
| UserController.EmptyPictureChangesNothing | backend/src/controllers/user.controller.ts:69-77 | an empty picture is an empty update: the caller is answered as stored |
| UserController.ProfileReportsStoredPicture | backend/src/controllers/user.controller.ts:75-94 | the answer is the profile of the user as now stored |
| UserController.UpdateProfileRoute | backend/src/controllers/user.controller.ts:58 | a body without a string picture is a 422 that changes nothing; otherwise the handler runs on that picture |
| AuthController.SessionCookieFor | backend/src/controllers/auth.controller.ts:46 | the cookie is the one token generation sets for the user at that time |
| AuthController.Registrant | backend/src/controllers/auth.controller.ts:40-47 | the stored user has the given id, e-mail and name, the default picture, and a password that accepts the one signed up with |
| AuthController.Signup | backend/src/controllers/auth.controller.ts:29-58 | a registered e-mail is 400 'Email already exists' with nothing stored or issued; otherwise the cookie is set before the save; success stores exactly the new user and answers 201; nothing is stored on failure |
| AuthController.SignupSucceeds | backend/src/controllers/auth.controller.ts:40-54 | a valid signup with a new e-mail and a new id succeeds and keeps the collection well formed |
| AuthController.SignupAcross | backend/src/controllers/auth.controller.ts:34-47 | with the lookup on one collection and the save into a later one: a registered e-mail in the first is the 400; otherwise the cookie is set, and the save's own error, if any, is passed on unchanged; success appends the new user to the later collection |
| AuthController.RacingSignups | backend/src/controllers/auth.controller.ts:34-47 | when a second signup with the same e-mail passed its lookup before the first saved, its save is refused with the e-mail duplicate-key error, which reaches the client as a 409, and the response still sets a cookie |
| AuthController.Login | backend/src/controllers/auth.controller.ts:71-93 | an unknown e-mail and a password bcrypt does not accept get the same 401 'Invalid credentials'; success welcomes the user by name and sets the session cookie for its id |
| AuthController.SignupThenLogin | backend/src/controllers/auth.controller.ts:76-88 | after a signup the same e-mail and password log in |
| AuthController.SignupTwice | backend/src/controllers/auth.controller.ts:34-37 | a second signup with the same e-mail is a 400 that changes nothing |
| AuthController.LogoutCookieOptions | backend/src/controllers/auth.controller.ts:106-110 | the cookie is cleared HTTP-only, with `SameSite=None` and `Secure` exactly under `PRODUCTION`, otherwise with `SameSite=Lax` |
| AuthController.Logout | backend/src/controllers/auth.controller.ts:104-120 | always clears `jwt` and answers 200 'Logged out successfully' |
| AuthController.LogoutAttributesDiffer | backend/src/controllers/auth.controller.ts:106-110 | outside production the cookie is cleared with other attributes than it was issued with |
| AuthController.CheckAuth | backend/src/controllers/auth.controller.ts:132-143 | answers 200 with the attached user unchanged and changes nothing |
| AuthController.SignupSessionChecks | backend/src/controllers/auth.controller.ts:131-139 | a valid signup with a new e-mail and id succeeds; the cookie it sets passes `protectRoute` within the day, and the check then answers with the new user without its password |
| AuthController.SignupRoute | backend/src/controllers/auth.controller.ts:28 | an invalid body is a 422 that stores and issues nothing; a valid one reaches `signup` |
| AuthController.LoginRoute | backend/src/controllers/auth.controller.ts:70 | an invalid body is a 422; a valid one reaches `login` |
| Routes.Route | backend/src/decorators/route.decorator.ts:35-48 | the declared method and path now give the middleware followed by the method itself; every other method and path gives what it gave; a method is added to the table at its first use |
| Routes.RouteLookup | backend/src/decorators/route.decorator.ts:40-44 | setting a path under a method changes the lookup of that method and path only |
| Routes.RouteFirstUse | backend/src/decorators/route.decorator.ts:40-44 | a method's first declaration appends its path table at the end |
| Routes.RouteNewPath | backend/src/decorators/route.decorator.ts:44 | a new path of a known method goes last in that method's table, and other methods are untouched |
| Routes.RegisterLookup | backend/src/decorators/route.decorator.ts:38-46 | a class's table gives, for each method and path, the handlers of its last declaration |
| Routes.RegisterWf | backend/src/decorators/route.decorator.ts:38-46 | a class's table never repeats a method |
| Routes.RegisterDeepWf | backend/src/decorators/route.decorator.ts:38-46 | no method's path table repeats a path |
| Routes.RenderAppend | backend/src/app.ts:89 | the text of a concatenated path is the concatenation of the texts |
| Routes.ApiBaseText | backend/src/app.ts:30 | the base route reads '/api/v1' |
| Routes.PathLayers | backend/src/app.ts:85-89 | one layer per path, in the table's order, mounted under the prefix |
| Routes.TableLayers | backend/src/app.ts:79-89 | a layer is mounted exactly when it comes from some method's path table |
| Routes.MountCons | backend/src/app.ts:74-89 | each controller's layers precede those of the controllers after it |
| Routes.MountedRoutesDeclared | backend/src/app.ts:74-89 | every mounted layer is an exact route '/api/v1' + controller path + route path whose handlers that controller declared last for it |
| Routes.DeclaredRoutesMounted | backend/src/app.ts:74-89 | every route a controller declares is mounted under its full path with its handlers |
| Routes.MountedPathText | backend/src/app.ts:89 | a mounted path reads '/api/v1' followed by the controller path and the route path |
| Routes.FirstMatch | backend/src/app.ts:89 | the index found takes the request and no earlier layer does; none is found exactly when no layer takes it |
| Routes.Dispatch | backend/src/app.ts:89 | the router loop finds the first layer that takes the request |
| Routes.Layers | backend/src/app.ts:38-39 | the routes come first, then the catch-all, then the error handler |
| Routes.NotFoundError | backend/src/app.ts:106-108 | the catch-all's error is an operational 404 'API route <url> not found' |
| Routes.Serve | backend/src/app.ts:104-111 | a route runs only when it is the first that takes the request; the catch-all answers exactly what no route takes under '/api/v1/', with its 404; anything else is left to Express |
| Routes.MountedUnderApi | backend/src/app.ts:89 | every mounted route is exact and starts with 'api', 'v1', trailing slash or not |
| Routes.OutsideApiUnmatched | backend/src/app.ts:89-108 | a request outside '/api/v1' reaches neither a route nor the catch-all |
| Routes.ServeFirst | backend/src/app.ts:74-89 | the first mounted layer that takes the request serves it |
| Application.MainTable | backend/src/controllers/main.controller.ts:20 | the main controller declares GET '/' only |
| Application.AuthTable | backend/src/controllers/auth.controller.ts:16-131 | POST signup, login and logout in that order, then GET check |
| Application.UserTable | backend/src/controllers/user.controller.ts:16-58 | GET '' and '/:id', then PATCH '/update-profile' |
| Application.MessageTable | backend/src/controllers/message.controller.ts:17-98 | GET '/users' before '/:receiverId', then POST '/send/:receiverId' |
| Application.RegisterThree | backend/src/decorators/route.decorator.ts:40-44 | two paths of one method then a path of another give two method tables in first-use order |
| Application.RegisterFour | backend/src/decorators/route.decorator.ts:40-44 | three paths of one method then a path of another give two method tables in first-use order |
| Application.AppMounted | backend/src/app.ts:38 | the application's eleven routes in mounting order: main, auth, users, messages |
| Application.SidebarBeforeConversation | backend/src/controllers/message.controller.ts:29-58 | GET '/api/v1/messages/users' reaches the sidebar handler although the conversation route would also take it |
| Application.ConversationPeer | backend/src/controllers/message.controller.ts:58-61 | whatever the conversation route serves has a non-empty peer other than 'users' |
| Application.HealthCheckServed | backend/src/controllers/main.controller.ts:9-20 | GET '/api/v1/' and GET '/api/v1' reach the health check |
| Application.UnknownSectionNotFound | backend/src/app.ts:106-108 | any method on a path below '/api/v1/' whose first segment names no controller gets the catch-all's 404 for that path |
| Application.NotFoundEnvelope | backend/src/app.ts:106-111 | the catch-all's error reaches the client as a 404 envelope naming the path, without code or errors |

## Left out

- Middleware wiring is not modelled: helmet, CORS, the body and cookie parsers, the logging middleware, process start-up and the database connection. They are framework plumbing; requests reach the model already parsed.
- Persistence is not modelled. Mongoose queries are replaced by functions on in-memory sequences. Timestamps (`createdAt`, `updatedAt`) and `__v` are omitted, and so is Mongoose's cast error for a malformed id.
- backend/src/decorators/mongoose.decorator.ts is not part of this model. `getAll` and `get` appear in the route table by name only.
- bcrypt, jsonwebtoken and the Cloudinary upload are foreign calls. They are the transparent stand-ins described above, and the upload is a parameter that may refuse. The Blowfish cipher itself is not modelled: two different 72-byte key streams are taken never to give the same hash.
- Crypto.Compare: a hash of a hash never matches in the model. bcrypt would accept the text of the inner hash; that case arises only when an already hashed password is hashed again.
- Each handler runs as one atomic step. The one interleaving modelled is the gap between signup's lookup and its save (`AuthController.SignupAcross`). Other overlapping requests are not modelled, for example a profile update racing another update between the upload and the write.
- String lengths in the zod and Mongoose length checks count Unicode characters. JavaScript counts UTF-16 code units, which differs for characters outside the Basic Multilingual Plane.
- Presence.ReceiverSocket: returns no socket for an inherited property name used as a receiver id. The source's lookup `userSocketMap[receiverId]` reads the inherited value instead. For `__proto__` that is `Object.prototype`, and for `constructor`, `toString`, … it is an inherited function. Both are truthy, so `sendMessage` calls `io.to(…).emit('newMessage', …)` with that value, and no registered socket is addressed. The model emits nothing in these cases, so its log leaves out that call.
- socket.io transport and delivery are not modelled: emissions are appended to a log. Socket ids are assumed fresh on every connection.
- Express routing is modelled for the application's own route shapes: literal segments, `:param` segments matching a non-empty segment, one optional trailing slash, and the `/*` catch-all. Case-insensitive matching, `HEAD` falling back to `GET`, query strings in `originalUrl` and percent-decoding are not modelled.
- MessageController.SendMessageRoute, UserController.UpdateProfileRoute: both start after `protectRoute` has attached the caller. A request that `protectRoute` refuses gets its 401 before validation runs, which `AuthMiddleware.ProtectRoute` states; the routes are not composed with it.
- The frontend is not modelled.
- The unit test expects a `token` field in the signup response. The controller never sends one, so this is not modelled.
- `PRODUCTION` is a parameter. The configuration module does not export it, so its value at run time is not known.
- JavaScript property-key ordering for integer-like keys is not modelled. Ordered maps keep insertion order for every key.
- Errors.MongooseValidation: builds the thrown Mongoose error value and has no contract of its own. Its handling is stated by `ErrorHandler.Classify`.
- MessageController.GetUsersForSidebar: states only that the caller and every password are excluded. The exact list is stated by `MessageController.Others`.
