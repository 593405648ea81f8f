/** The request-body schemas (backend/src/schemas/auth.schema.ts,
    message.schema.ts, user.schema.ts) and the part of the zod library they
    rely on: `safeParse` of a flat object of string fields, and
    `error.format()`. The email-format regular expression belongs to the
    library and is a parameter `isEmail`. */
module Schemas {
  import opened Wrappers
  import OrderedMaps

  /** A JSON value as far as a string field can tell. */
  datatype Value = Str(s: string) | Num | Bool | Null | Arr | Obj

  /** A parsed JSON request body; a missing field is a missing key. */
  type Body = map<string, Value>

  /** A zod issue: the field it is about (`None` for the object itself) and its message. */
  datatype Issue = Issue(field: Option<string>, message: string)

  /** The outcome of `schema.safeParse(body)`. */
  datatype SafeParse<T> = Valid(value: T) | Invalid(issues: seq<Issue>)

  /** A refinement of `z.string()`. */
  datatype Check = MinLength(n: nat, message: string) | EmailFormat(message: string)

  /** One field of `z.object({...})`: `z.string()` with checks, optionally `.optional()`. */
  datatype FieldRule = FieldRule(key: string, optional: bool, checks: seq<Check>)

  const RequiredMessage := "Required"

  /** The name zod reports for a value that is not a string. */
  function TypeName(v: Value): string {
    match v
    case Str(_) => "string"
    case Num => "number"
    case Bool => "boolean"
    case Null => "null"
    case Arr => "array"
    case Obj => "object"
  }

  predicate Passes(s: string, c: Check, isEmail: string -> bool) {
    match c
    case MinLength(n, _) => |s| >= n
    case EmailFormat(_) => isEmail(s)
  }

  /** Every failing check of a string, in declaration order. */
  function CheckIssues(key: string, s: string, checks: seq<Check>, isEmail: string -> bool): seq<Issue> {
    if |checks| == 0 then []
    else
      (if Passes(s, checks[0], isEmail) then [] else [Issue(Some(key), checks[0].message)])
      + CheckIssues(key, s, checks[1..], isEmail)
  }

  /** The issues of one field: missing, not a string, or failing checks. */
  function FieldIssues(body: Body, rule: FieldRule, isEmail: string -> bool): seq<Issue> {
    if rule.key !in body then
      if rule.optional then [] else [Issue(Some(rule.key), RequiredMessage)]
    else
      match body[rule.key]
      case Str(s) => CheckIssues(rule.key, s, rule.checks, isEmail)
      case v => [Issue(Some(rule.key), "Expected string, received " + TypeName(v))]
  }

  /** The issues of an object, field by field in declaration order. */
  function ObjectIssues(body: Body, rules: seq<FieldRule>, isEmail: string -> bool): seq<Issue> {
    if |rules| == 0 then []
    else FieldIssues(body, rules[0], isEmail) + ObjectIssues(body, rules[1..], isEmail)
  }

  /** A field is acceptable when it is an absent optional field, or a string
      that passes every check. */
  predicate FieldOk(body: Body, rule: FieldRule, isEmail: string -> bool) {
    if rule.key !in body then rule.optional
    else body[rule.key].Str? && forall i :: 0 <= i < |rule.checks| ==> Passes(body[rule.key].s, rule.checks[i], isEmail)
  }

  lemma {:induction false} CheckIssuesEmptyIff(key: string, s: string, checks: seq<Check>, isEmail: string -> bool)
    ensures CheckIssues(key, s, checks, isEmail) == [] <==> forall i :: 0 <= i < |checks| ==> Passes(s, checks[i], isEmail)
  {
    if |checks| > 0 {
      CheckIssuesEmptyIff(key, s, checks[1..], isEmail);
      assert forall i :: 1 <= i < |checks| ==> checks[i] == checks[1..][i - 1];
    }
  }

  /** A failing check is reported with its own message. */
  lemma {:induction false} CheckIssuesHas(key: string, s: string, checks: seq<Check>, isEmail: string -> bool, j: nat)
    requires j < |checks| && !Passes(s, checks[j], isEmail)
    ensures Issue(Some(key), checks[j].message) in CheckIssues(key, s, checks, isEmail)
  {
    if j > 0 {
      CheckIssuesHas(key, s, checks[1..], isEmail, j - 1);
    }
  }

  /** The issues of each field are among the object's issues. */
  lemma {:induction false} ObjectIssuesHas(body: Body, rules: seq<FieldRule>, isEmail: string -> bool, j: nat, issue: Issue)
    requires j < |rules| && issue in FieldIssues(body, rules[j], isEmail)
    ensures issue in ObjectIssues(body, rules, isEmail)
  {
    if j > 0 {
      ObjectIssuesHas(body, rules[1..], isEmail, j - 1, issue);
    }
  }

  /** A string field failing its `j`-th check makes the object report that check's message. */
  lemma FailingCheckReported(body: Body, rules: seq<FieldRule>, isEmail: string -> bool, j: nat, c: nat)
    requires j < |rules| && c < |rules[j].checks|
    ensures IsStr(body, rules[j].key) && !Passes(body[rules[j].key].s, rules[j].checks[c], isEmail) ==>
      Issue(Some(rules[j].key), rules[j].checks[c].message) in ObjectIssues(body, rules, isEmail)
  {
    if IsStr(body, rules[j].key) && !Passes(body[rules[j].key].s, rules[j].checks[c], isEmail) {
      CheckIssuesHas(rules[j].key, body[rules[j].key].s, rules[j].checks, isEmail, c);
      ObjectIssuesHas(body, rules, isEmail, j, Issue(Some(rules[j].key), rules[j].checks[c].message));
    }
  }

  /** Every issue of a field is about that field. */
  lemma FieldIssuesAbout(body: Body, rule: FieldRule, isEmail: string -> bool)
    ensures forall i :: 0 <= i < |FieldIssues(body, rule, isEmail)| ==>
      FieldIssues(body, rule, isEmail)[i].field == Some(rule.key)
  {
    if rule.key in body && body[rule.key].Str? {
      CheckIssuesAbout(rule.key, body[rule.key].s, rule.checks, isEmail);
    }
  }

  lemma {:induction false} CheckIssuesAbout(key: string, s: string, checks: seq<Check>, isEmail: string -> bool)
    ensures forall i :: 0 <= i < |CheckIssues(key, s, checks, isEmail)| ==> CheckIssues(key, s, checks, isEmail)[i].field == Some(key)
  {
    if |checks| > 0 {
      CheckIssuesAbout(key, s, checks[1..], isEmail);
    }
  }

  /** An object has no issues exactly when each of its fields is acceptable. */
  lemma {:induction false} ObjectIssuesEmptyIff(body: Body, rules: seq<FieldRule>, isEmail: string -> bool)
    ensures ObjectIssues(body, rules, isEmail) == [] <==> forall i :: 0 <= i < |rules| ==> FieldOk(body, rules[i], isEmail)
  {
    if |rules| > 0 {
      ObjectIssuesEmptyIff(body, rules[1..], isEmail);
      var r := rules[0];
      if r.key in body && body[r.key].Str? {
        CheckIssuesEmptyIff(r.key, body[r.key].s, r.checks, isEmail);
      }
      assert forall i :: 1 <= i < |rules| ==> rules[i] == rules[1..][i - 1];
    }
  }

  // ----- The application's schemas -----

  const NameTooShort := "Name must be at least 3 characters"
  const InvalidEmail := "Invalid email format"
  const PasswordTooShort := "Password must be at least 6 characters"
  const EmptyMessage := "Message must contain either text or an image"

  const FullNameRule := FieldRule("fullName", false, [MinLength(3, NameTooShort)])
  const EmailRule := FieldRule("email", false, [EmailFormat(InvalidEmail)])
  const PasswordRule := FieldRule("password", false, [MinLength(6, PasswordTooShort)])

  /** `signupSchema`. */
  const SignupRules: seq<FieldRule> := [FullNameRule, EmailRule, PasswordRule, FieldRule("profilePic", true, [])]
  /** `loginSchema`: no `profilePic`. */
  const LoginRules: seq<FieldRule> := [EmailRule, PasswordRule]
  /** `updateUserSchema`: a required string `profilePic`. */
  const UpdateUserRules: seq<FieldRule> := [FieldRule("profilePic", false, [])]
  /** The object part of `messageSchema`. */
  const MessageRules: seq<FieldRule> := [FieldRule("text", true, []), FieldRule("image", true, [])]

  datatype SignupInput = SignupInput(fullName: string, email: string, password: string, profilePic: Option<string>)
  datatype LoginInput = LoginInput(email: string, password: string)
  datatype MessageInput = MessageInput(text: Option<string>, image: Option<string>)

  /** `key` holds a string. */
  predicate IsStr(body: Body, key: string) {
    key in body && body[key].Str?
  }

  /** `key` is absent or holds a string. */
  predicate IsOptStr(body: Body, key: string) {
    key !in body || body[key].Str?
  }

  function OptStr(body: Body, key: string): Option<string>
    requires IsOptStr(body, key)
  {
    if key in body then Some(body[key].s) else None
  }

  /** What the signup form must satisfy, stated field by field. */
  predicate SignupAcceptable(body: Body, isEmail: string -> bool) {
    && IsStr(body, "fullName") && |body["fullName"].s| >= 3
    && IsStr(body, "email") && isEmail(body["email"].s)
    && IsStr(body, "password") && |body["password"].s| >= 6
    && IsOptStr(body, "profilePic")
  }

  predicate LoginAcceptable(body: Body, isEmail: string -> bool) {
    && IsStr(body, "email") && isEmail(body["email"].s)
    && IsStr(body, "password") && |body["password"].s| >= 6
  }

  function ParseSignup(body: Body, isEmail: string -> bool): (r: SafeParse<SignupInput>)
    ensures r.Valid? <==> SignupAcceptable(body, isEmail)
    ensures r.Valid? ==> r.value == SignupInput(body["fullName"].s, body["email"].s, body["password"].s, OptStr(body, "profilePic"))
    ensures r.Invalid? ==> r.issues != []
    // The documented messages are reported for the field they concern.
    ensures IsStr(body, "fullName") && |body["fullName"].s| < 3 ==> r.Invalid? && Issue(Some("fullName"), NameTooShort) in r.issues
    ensures IsStr(body, "email") && !isEmail(body["email"].s) ==> r.Invalid? && Issue(Some("email"), InvalidEmail) in r.issues
    ensures IsStr(body, "password") && |body["password"].s| < 6 ==> r.Invalid? && Issue(Some("password"), PasswordTooShort) in r.issues
  {
    var issues := ObjectIssues(body, SignupRules, isEmail);
    ObjectIssuesEmptyIff(body, SignupRules, isEmail);
    assert FieldOk(body, SignupRules[0], isEmail) <==> IsStr(body, "fullName") && |body["fullName"].s| >= 3 by {
      assert SignupRules[0].checks[0] == MinLength(3, NameTooShort);
    }
    assert FieldOk(body, SignupRules[1], isEmail) <==> IsStr(body, "email") && isEmail(body["email"].s) by {
      assert SignupRules[1].checks[0] == EmailFormat(InvalidEmail);
    }
    assert FieldOk(body, SignupRules[2], isEmail) <==> IsStr(body, "password") && |body["password"].s| >= 6 by {
      assert SignupRules[2].checks[0] == MinLength(6, PasswordTooShort);
    }
    assert FieldOk(body, SignupRules[3], isEmail) <==> IsOptStr(body, "profilePic");
    FailingCheckReported(body, SignupRules, isEmail, 0, 0);
    FailingCheckReported(body, SignupRules, isEmail, 1, 0);
    FailingCheckReported(body, SignupRules, isEmail, 2, 0);
    if issues == [] then Valid(SignupInput(body["fullName"].s, body["email"].s, body["password"].s, OptStr(body, "profilePic")))
    else Invalid(issues)
  }

  function ParseLogin(body: Body, isEmail: string -> bool): (r: SafeParse<LoginInput>)
    ensures r.Valid? <==> LoginAcceptable(body, isEmail)
    ensures r.Valid? ==> r.value == LoginInput(body["email"].s, body["password"].s)
    ensures r.Invalid? ==> r.issues != []
    ensures IsStr(body, "email") && !isEmail(body["email"].s) ==> r.Invalid? && Issue(Some("email"), InvalidEmail) in r.issues
    ensures IsStr(body, "password") && |body["password"].s| < 6 ==> r.Invalid? && Issue(Some("password"), PasswordTooShort) in r.issues
  {
    var issues := ObjectIssues(body, LoginRules, isEmail);
    ObjectIssuesEmptyIff(body, LoginRules, isEmail);
    assert FieldOk(body, LoginRules[0], isEmail) <==> IsStr(body, "email") && isEmail(body["email"].s) by {
      assert LoginRules[0].checks[0] == EmailFormat(InvalidEmail);
    }
    assert FieldOk(body, LoginRules[1], isEmail) <==> IsStr(body, "password") && |body["password"].s| >= 6 by {
      assert LoginRules[1].checks[0] == MinLength(6, PasswordTooShort);
    }
    FailingCheckReported(body, LoginRules, isEmail, 0, 0);
    FailingCheckReported(body, LoginRules, isEmail, 1, 0);
    if issues == [] then Valid(LoginInput(body["email"].s, body["password"].s))
    else Invalid(issues)
  }

  function ParseUpdateUser(body: Body): (r: SafeParse<string>)
    ensures r.Valid? <==> IsStr(body, "profilePic")
    ensures r.Valid? ==> r.value == body["profilePic"].s
    ensures r.Invalid? ==> r.issues != []
  {
    var isEmail := (s: string) => true;
    var issues := ObjectIssues(body, UpdateUserRules, isEmail);
    ObjectIssuesEmptyIff(body, UpdateUserRules, isEmail);
    if issues == [] then Valid(body["profilePic"].s) else Invalid(issues)
  }

  /** `messageSchema`: both fields optional strings, then the refinement
      that one of them is truthy. The refinement runs only when the object
      itself parsed, and its issue is about the object, not a field. */
  function ParseMessage(body: Body): (r: SafeParse<MessageInput>)
    ensures r.Valid? <==> IsOptStr(body, "text") && IsOptStr(body, "image")
                          && (Truthy(OptStr(body, "text")) || Truthy(OptStr(body, "image")))
    ensures r.Valid? ==> r.value == MessageInput(OptStr(body, "text"), OptStr(body, "image"))
    ensures r.Invalid? ==> r.issues != []
    ensures IsOptStr(body, "text") && IsOptStr(body, "image") && r.Invalid? ==>
      r.issues == [Issue(None, EmptyMessage)]
  {
    var isEmail := (s: string) => true;
    var issues := ObjectIssues(body, MessageRules, isEmail);
    ObjectIssuesEmptyIff(body, MessageRules, isEmail);
    if issues != [] then Invalid(issues)
    else
      var text, image := OptStr(body, "text"), OptStr(body, "image");
      if Truthy(text) || Truthy(image) then Valid(MessageInput(text, image))
      else Invalid([Issue(None, EmptyMessage)])
  }

  // ----- error.format() -----

  /** One entry of `Object.entries(error.format())`: a key and the `_errors`
      list of its value (`None` for the root `_errors` array itself, which has
      no `_errors` member). */
  datatype FieldEntry = FieldEntry(key: string, nested: Option<seq<string>>)

  const RootKey := "_errors"

  /** The messages of the issues about `key`, in order. */
  function MessagesFor(issues: seq<Issue>, key: string): seq<string>
    decreases |issues|
  {
    if |issues| == 0 then []
    else
      var n := |issues| - 1;
      MessagesFor(issues[..n], key) + (if issues[n].field == Some(key) then [issues[n].message] else [])
  }

  lemma {:induction false} MessagesForNone(issues: seq<Issue>, key: string)
    requires forall i :: 0 <= i < |issues| ==> issues[i].field != Some(key)
    ensures MessagesFor(issues, key) == []
    decreases |issues|
  {
    if |issues| > 0 {
      var n := |issues| - 1;
      assert forall i :: 0 <= i < n ==> issues[..n][i] == issues[i];
      MessagesForNone(issues[..n], key);
    }
  }

  /** Field issues grouped by field, fields in order of their first issue. */
  function Group(issues: seq<Issue>): OrderedMaps.OrderedMap<string, seq<string>>
    decreases |issues|
  {
    if |issues| == 0 then []
    else
      var n := |issues| - 1;
      var acc := Group(issues[..n]);
      match issues[n].field
      case None => acc
      case Some(k) => OrderedMaps.Put(acc, k, OrderedMaps.Get(acc, k).GetOr([]) + [issues[n].message])
  }

  /** Some issue concerns `key`. */
  predicate Mentions(issues: seq<Issue>, key: string) {
    exists i :: 0 <= i < |issues| && issues[i].field == Some(key)
  }

  lemma MentionsSnoc(issues: seq<Issue>, key: string)
    requires |issues| > 0
    ensures Mentions(issues, key) <==>
      Mentions(issues[..|issues| - 1], key) || issues[|issues| - 1].field == Some(key)
  {
    var n := |issues| - 1;
    assert forall i :: 0 <= i < n ==> issues[..n][i] == issues[i];
  }

  /** Grouping collects, under each field, exactly that field's messages. */
  lemma {:induction false} GroupGet(issues: seq<Issue>, key: string)
    ensures OrderedMaps.Get(Group(issues), key) ==
      if Mentions(issues, key) then Some(MessagesFor(issues, key)) else None
    decreases |issues|
  {
    if |issues| > 0 {
      var n := |issues| - 1;
      var prefix := issues[..n];
      GroupGet(prefix, key);
      MentionsSnoc(issues, key);
      var acc := Group(prefix);
      var msg := issues[n].message;
      if issues[n].field.Some? {
        var k := issues[n].field.value;
        var entry := OrderedMaps.Get(acc, k).GetOr([]) + [msg];
        assert Group(issues) == OrderedMaps.Put(acc, k, entry);
        OrderedMaps.PutGet(acc, k, entry, key);
        if k == key {
          assert MessagesFor(issues, key) == MessagesFor(prefix, key) + [msg];
          if !Mentions(prefix, key) {
            MessagesForNone(prefix, key);
          }
        } else {
          assert MessagesFor(issues, key) == MessagesFor(prefix, key);
        }
      } else {
        assert Group(issues) == acc;
        assert MessagesFor(issues, key) == MessagesFor(prefix, key);
      }
    }
  }

  /** Grouping never repeats a field. */
  lemma {:induction false} GroupWf(issues: seq<Issue>)
    ensures OrderedMaps.Wf(Group(issues))
    decreases |issues|
  {
    if |issues| > 0 {
      var n := |issues| - 1;
      GroupWf(issues[..n]);
      var acc := Group(issues[..n]);
      if issues[n].field.Some? {
        var k := issues[n].field.value;
        OrderedMaps.PutWf(acc, k, OrderedMaps.Get(acc, k).GetOr([]) + [issues[n].message]);
      }
    }
  }

  function GroupEntries(groups: OrderedMaps.OrderedMap<string, seq<string>>): (r: seq<FieldEntry>)
    ensures |r| == |groups|
    ensures forall i :: 0 <= i < |r| ==> r[i] == FieldEntry(groups[i].0, Some(groups[i].1))
  {
    if |groups| == 0 then [] else [FieldEntry(groups[0].0, Some(groups[0].1))] + GroupEntries(groups[1..])
  }

  /** `Object.entries(error.format())`: the root `_errors` first, then one
      entry per field with its messages. Issues about the object itself go
      into the root array. */
  function Format(issues: seq<Issue>): seq<FieldEntry> {
    [FieldEntry(RootKey, None)] + GroupEntries(Group(issues))
  }
}
