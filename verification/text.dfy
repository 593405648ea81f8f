/** `Array.prototype.join`, which the validation middleware uses to turn a
    field's messages into one string. */
module Text {

  /** `parts.join(sep)`: the parts separated by `sep`; the empty list joins to "". */
  function Join(parts: seq<string>, sep: string): string
    decreases |parts|
  {
    if |parts| == 0 then ""
    else if |parts| == 1 then parts[0]
    else parts[0] + sep + Join(parts[1..], sep)
  }

  /** With a non-empty separator, a join is empty exactly when there is
      nothing to join or the only part is itself empty; this is when the
      validation middleware falls back to 'Invalid'. */
  lemma {:induction false} JoinEmptyIff(parts: seq<string>, sep: string)
    requires sep != ""
    ensures Join(parts, sep) == "" <==> (parts == [] || parts == [""])
    decreases |parts|
  {
    if |parts| >= 2 {
      assert |Join(parts, sep)| >= |sep|;
    }
  }

  /** Joining one more part adds the separator and that part at the end, so
      the messages appear in order, each separated from the next by `sep`. */
  lemma {:induction false} JoinSnoc(parts: seq<string>, p: string, sep: string)
    requires |parts| >= 1
    ensures Join(parts + [p], sep) == Join(parts, sep) + sep + p
    decreases |parts|
  {
    var all := parts + [p];
    if |parts| > 1 {
      assert all[1..] == parts[1..] + [p];
      JoinSnoc(parts[1..], p, sep);
      assert Join(all, sep) == parts[0] + sep + (Join(parts[1..], sep) + sep + p);
    } else {
      assert all == [parts[0], p];
    }
  }
}
