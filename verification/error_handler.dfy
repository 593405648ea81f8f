/** The global error handler (backend/src/middlewares/error.middleware.ts):
    classifies whatever reached `next(error)` and builds the JSON envelope
    that is sent with the matching HTTP status. */
module ErrorHandler {
  import opened Wrappers
  import opened Errors
  import OrderedMaps

  /** The body of every error response; the HTTP status equals `status`.
      Absent optional members are `None`. */
  datatype Envelope = Envelope(
    success: bool,
    status: int,
    message: string,
    errorCode: Option<int>,
    errors: Option<map<string, string>>,
    stack: Option<string>)

  const GenericMessage := "Something went wrong"

  /** The message reported for each duplicated key. */
  function DuplicateMessage(key: string, value: string): string {
    key + " with value '" + value + "' already exists"
  }

  /** Rewrites each duplicated key/value pair into its message. */
  function DuplicateEntries(keyValue: seq<(string, string)>): (r: seq<(string, string)>)
    ensures |r| == |keyValue|
    ensures forall i :: 0 <= i < |r| ==> r[i] == (keyValue[i].0, DuplicateMessage(keyValue[i].0, keyValue[i].1))
  {
    if |keyValue| == 0 then []
    else [(keyValue[0].0, DuplicateMessage(keyValue[0].0, keyValue[0].1))] + DuplicateEntries(keyValue[1..])
  }

  /** The classification: status, message, code and errors record. */
  datatype Classified = Classified(status: int, message: string, code: Option<int>, errors: Option<map<string, string>>)

  function Classify(err: Thrown): (c: Classified)
    // An AppError passes its status, message and code straight through;
    // its errors survive only on a 422.
    ensures err.App? ==> c.status == err.err.statusCode && c.message == err.err.message && c.code == err.err.code
    ensures err.App? ==> c.errors == (if err.err.statusCode == 422 then err.err.errors else None)
    // Every other error has no code.
    ensures err.Native? ==> c.code.None?
    // Library errors are recognised by name, in this order.
    ensures err.Native? && err.name == "ValidationError" ==>
      c == Classified(400, "Validation Error", None, Some(OrderedMaps.FromEntries(err.pathMessages)))
    ensures err.Native? && err.name != "ValidationError" && err.name == "MongoServerError" && err.code == Some(11000) ==>
      c.status == 409 && c.message == "Duplicate field value entered" && c.errors.Some?
    ensures err.Native? && err.name == "JsonWebTokenError" ==> c == Classified(401, "Invalid token", None, None)
    ensures err.Native? && err.name == "TokenExpiredError" ==> c == Classified(401, "Token expired", None, None)
    // Anything unrecognised is a generic 500.
    ensures err.Native? && err.name !in {"ValidationError", "JsonWebTokenError", "TokenExpiredError"}
            && !(err.name == "MongoServerError" && err.code == Some(11000)) ==>
      c == Classified(500, GenericMessage, None, None)
  {
    match err
    case App(e) => Classified(e.statusCode, e.message, e.code, if e.statusCode == 422 then e.errors else None)
    case Native(name, _, code, pathMessages, keyValue) =>
      if name == "ValidationError" then
        Classified(400, "Validation Error", None, Some(OrderedMaps.FromEntries(pathMessages)))
      else if name == "MongoServerError" && code == Some(11000) then
        Classified(409, "Duplicate field value entered", None, Some(OrderedMaps.FromEntries(DuplicateEntries(keyValue))))
      else if name == "JsonWebTokenError" then Classified(401, "Invalid token", None, None)
      else if name == "TokenExpiredError" then Classified(401, "Token expired", None, None)
      else Classified(500, GenericMessage, None, None)
  }

  /** `errorHandler(err, ...)`: `stack` is the error's captured trace and
      `nodeEnv` is `process.env.NODE_ENV`. */
  function Handle(err: Thrown, stack: string, nodeEnv: Option<string>): (env: Envelope)
    ensures !env.success
    ensures env.status == Classify(err).status && env.message == Classify(err).message
    // `errorCode` appears only when the code is truthy (present and non-zero).
    ensures env.errorCode.Some? <==> Classify(err).code.Some? && Classify(err).code.value != 0
    ensures env.errorCode.Some? ==> env.errorCode == Classify(err).code
    // An errors record, even an empty one, is a truthy object.
    ensures env.errors == Classify(err).errors
    // The stack is exposed only in development.
    ensures env.stack.Some? <==> nodeEnv == Some("development")
    ensures env.stack.Some? ==> env.stack.value == stack
  {
    var c := Classify(err);
    Envelope(
      false,
      c.status,
      c.message,
      if c.code.Some? && c.code.value != 0 then c.code else None,
      c.errors,
      if nodeEnv == Some("development") then Some(stack) else None)
  }

  /** The errors record of a duplicate-key failure. */
  function DuplicateErrors(keyValue: seq<(string, string)>): map<string, string> {
    OrderedMaps.FromEntries(DuplicateEntries(keyValue))
  }

  /** A duplicate-key failure is a 409 carrying its errors record. */
  lemma DuplicateKeyEnvelope(keyValue: seq<(string, string)>, stack: string, nodeEnv: Option<string>)
    ensures Handle(DuplicateKey(keyValue), stack, nodeEnv).status == 409
    ensures Handle(DuplicateKey(keyValue), stack, nodeEnv).errors == Some(DuplicateErrors(keyValue))
  {
  }

  /** The record names exactly the duplicated keys, each with its message. */
  lemma DuplicateErrorsContent(keyValue: seq<(string, string)>)
    requires OrderedMaps.Wf(keyValue)
    ensures DuplicateErrors(keyValue).Keys == set k | k in OrderedMaps.Keys(keyValue)
    ensures forall i :: 0 <= i < |keyValue| ==>
      keyValue[i].0 in DuplicateErrors(keyValue) &&
      DuplicateErrors(keyValue)[keyValue[i].0] == DuplicateMessage(keyValue[i].0, keyValue[i].1)
  {
    var entries := DuplicateEntries(keyValue);
    assert OrderedMaps.Keys(entries) == OrderedMaps.Keys(keyValue);
    OrderedMaps.FromEntriesKeys(entries);
    forall i | 0 <= i < |keyValue|
      ensures keyValue[i].0 in DuplicateErrors(keyValue)
      ensures DuplicateErrors(keyValue)[keyValue[i].0] == DuplicateMessage(keyValue[i].0, keyValue[i].1)
    {
      assert entries[i] == (keyValue[i].0, DuplicateMessage(keyValue[i].0, keyValue[i].1));
      forall j | i < j < |entries|
        ensures entries[j].0 != entries[i].0
      {
        assert entries[j].0 == keyValue[j].0;
      }
      OrderedMaps.FromEntriesLast(entries, i);
    }
  }

  /** Every factory's error reaches the client with the factory's status and
      message; a `badRequest` loses its errors record even when it has one. */
  lemma FactoryEnvelope(f: Factory, message: Option<string>, errors: Option<map<string, string>>,
                        code: Option<int>, stack: string, nodeEnv: Option<string>)
    ensures var env := Handle(App(Make(f, message, errors, code)), stack, nodeEnv);
      && env.status == Status(f)
      && env.message == message.GetOr(DefaultMessage(f))
      && (env.errors.Some? <==> f == ValidationErrorF)
  {
    FactoryContract(f, message, errors, code);
  }
}
