/** The request-validation middleware
    (backend/src/middlewares/validation.middleware.ts): a valid body passes
    through untouched, an invalid one becomes a 422 `validationError` whose
    errors record maps each field to its messages joined with ", ". */
module Validation {
  import opened Wrappers
  import opened Errors
  import opened Schemas
  import Text
  import OrderedMaps

  /** What the middleware does with the request: `next()` or `next(error)`. */
  datatype Next = Continue | Fail(err: AppError)

  const Fallback := "Invalid"

  /** One field's messages: `_errors?.join(', ') || 'Invalid'`. */
  function Describe(nested: Option<seq<string>>): (d: string)
    ensures nested.None? || nested.value == [] || nested.value == [""] ==> d == Fallback
    ensures nested.Some? && nested.value != [] && nested.value != [""] ==> d == Text.Join(nested.value, ", ")
  {
    match nested
    case None => Fallback
    case Some(ms) =>
      var joined := Text.Join(ms, ", ");
      Text.JoinEmptyIff(ms, ", ");
      if joined == "" then Fallback else joined
  }

  /** The `reduce` over `Object.entries(error.format())`: every key other
      than `_errors` is written with its description, later entries winning. */
  function FormatErrors(entries: seq<FieldEntry>): map<string, string>
    decreases |entries|
  {
    if |entries| == 0 then map[]
    else
      var n := |entries| - 1;
      var acc := FormatErrors(entries[..n]);
      if entries[n].key != RootKey then acc[entries[n].key := Describe(entries[n].nested)] else acc
  }

  /** The formatted record has exactly the non-root keys of the entries. */
  lemma {:induction false} FormatErrorsKeys(entries: seq<FieldEntry>, key: string)
    ensures key in FormatErrors(entries) <==>
      key != RootKey && exists i :: 0 <= i < |entries| && entries[i].key == key
    decreases |entries|
  {
    if |entries| > 0 {
      var n := |entries| - 1;
      FormatErrorsKeys(entries[..n], key);
      assert forall i :: 0 <= i < n ==> entries[..n][i] == entries[i];
    }
  }

  /** A key's text is the description of its last entry. */
  lemma {:induction false} FormatErrorsLast(entries: seq<FieldEntry>, i: nat)
    requires i < |entries| && entries[i].key != RootKey
    requires forall j :: i < j < |entries| ==> entries[j].key != entries[i].key
    ensures entries[i].key in FormatErrors(entries)
    ensures FormatErrors(entries)[entries[i].key] == Describe(entries[i].nested)
    decreases |entries|
  {
    var n := |entries| - 1;
    if i < n {
      FormatErrorsLast(entries[..n], i);
    }
  }

  /** `validate(schema)` applied to the outcome of `schema.safeParse(body)`. */
  function Validate<T>(parsed: SafeParse<T>): (r: Next)
    ensures r.Continue? <==> parsed.Valid?
    ensures r.Fail? ==> r.err.statusCode == 422 && r.err.isOperational && r.err.message == DefaultValidation
    ensures r.Fail? ==> r.err.errors == Some(FormatErrors(Format(parsed.issues)))
  {
    match parsed
    case Valid(_) => Continue
    case Invalid(issues) => Fail(ValidationError(FormatErrors(Format(issues)), None))
  }

  /** End to end: the 422 record names exactly the fields some issue is
      about (never the object itself) and gives each its joined messages. */
  lemma FieldErrorsOfIssues(issues: seq<Issue>, key: string)
    ensures key in FormatErrors(Format(issues)) <==> key != RootKey && Mentions(issues, key)
    ensures key in FormatErrors(Format(issues)) ==>
      FormatErrors(Format(issues))[key] == Describe(Some(MessagesFor(issues, key)))
  {
    if key != RootKey && Mentions(issues, key) {
      FieldErrorsMentioned(issues, key);
    } else {
      FieldErrorsUnmentioned(issues, key);
    }
  }

  lemma FieldErrorsMentioned(issues: seq<Issue>, key: string)
    requires key != RootKey && Mentions(issues, key)
    ensures key in FormatErrors(Format(issues))
    ensures FormatErrors(Format(issues))[key] == Describe(Some(MessagesFor(issues, key)))
  {
    GroupGet(issues, key);
    GroupWf(issues);
    FormatShape(issues);
    FormatGroupsAt(Group(issues), Format(issues), key, MessagesFor(issues, key));
  }

  lemma FieldErrorsUnmentioned(issues: seq<Issue>, key: string)
    requires key == RootKey || !Mentions(issues, key)
    ensures key !in FormatErrors(Format(issues))
  {
    GroupGet(issues, key);
    FormatShape(issues);
    FormatGroupsAbsent(Group(issues), Format(issues), key);
  }

  /** The entries list the root first, then one entry per group, in order. */
  predicate EntriesOf(groups: OrderedMaps.OrderedMap<string, seq<string>>, entries: seq<FieldEntry>) {
    && |entries| == |groups| + 1
    && entries[0].key == RootKey
    && forall i :: 1 <= i < |entries| ==> entries[i] == FieldEntry(groups[i - 1].0, Some(groups[i - 1].1))
  }

  lemma FormatShape(issues: seq<Issue>)
    ensures EntriesOf(Group(issues), Format(issues))
  {
  }

  /** A field of the groups is written with its messages. */
  lemma FormatGroupsAt(groups: OrderedMaps.OrderedMap<string, seq<string>>, entries: seq<FieldEntry>, key: string, ms: seq<string>)
    requires OrderedMaps.Wf(groups) && EntriesOf(groups, entries)
    requires key != RootKey && OrderedMaps.Get(groups, key) == Some(ms)
    ensures key in FormatErrors(entries)
    ensures FormatErrors(entries)[key] == Describe(Some(ms))
  {
    var g :| 0 <= g < |groups| && OrderedMaps.Keys(groups)[g] == key;
    OrderedMaps.GetAt(groups, g);
    forall j | g + 1 < j < |entries|
      ensures entries[j].key != entries[g + 1].key
    {
      assert groups[j - 1].0 != groups[g].0;
    }
    FormatErrorsLast(entries, g + 1);
  }

  /** Neither the root nor a key outside the groups is written. */
  lemma FormatGroupsAbsent(groups: OrderedMaps.OrderedMap<string, seq<string>>, entries: seq<FieldEntry>, key: string)
    requires EntriesOf(groups, entries)
    requires key == RootKey || OrderedMaps.Get(groups, key).None?
    ensures key !in FormatErrors(entries)
  {
    FormatErrorsKeys(entries, key);
    if key != RootKey {
      forall i | 0 <= i < |entries|
        ensures entries[i].key != key
      {
        if i > 0 {
          assert OrderedMaps.Keys(groups)[i - 1] == entries[i].key;
        }
      }
    }
  }

  /** A message body that has neither text nor image is refused with a 422
      whose errors record is empty: the refinement's message is about the
      object, not a field, so the formatting drops it. */
  lemma EmptyMessageLosesItsReason(body: Body)
    requires IsOptStr(body, "text") && IsOptStr(body, "image")
    requires !Truthy(OptStr(body, "text")) && !Truthy(OptStr(body, "image"))
    ensures Validate(ParseMessage(body)) == Fail(ValidationError(map[], None))
  {
    var issues := [Issue(None, EmptyMessage)];
    assert ParseMessage(body).issues == issues;
    forall key
      ensures key !in FormatErrors(Format(issues))
    {
      FieldErrorsOfIssues(issues, key);
    }
    assert FormatErrors(Format(issues)) == map[];
  }
}
