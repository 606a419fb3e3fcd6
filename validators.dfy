/**
 * The validation rules a ValidationBehavior runs. A rule checks the view's
 * property value (`None` when it is null or not a string) and carries the
 * message shown when it fails.
 */
module Validators {
  import opened Wrappers
  import Text

  /**
   * RequiredValidator and FormatValidator. A FormatValidator's `Format`
   * regular expression is kept uninterpreted: `isMatch` is what
   * `new Regex(Format).IsMatch` answers for a string.
   */
  datatype Validator =
    | Required(message: string)
    | Format(message: string, isMatch: string -> bool)

  const RequiredMessage: string := "This field is required"
  const FormatMessage: string := "Invalid format"

  /** `new RequiredValidator()`, with its default message. */
  function NewRequired(): (v: Validator)
    ensures v.Required? && v.message == "This field is required"
  {
    Required(RequiredMessage)
  }

  /** `new FormatValidator { Format = ... }`, with its default message. */
  function NewFormat(isMatch: string -> bool): (v: Validator)
    ensures v.Format? && v.message == "Invalid format" && v.isMatch == isMatch
  {
    Format(FormatMessage, isMatch)
  }

  /** RequiredValidator.Check: the value is neither null nor all whitespace. */
  function RequiredCheck(value: Option<string>): (ok: bool)
    ensures ok <==> value.Some? && exists i :: 0 <= i < |value.value| && !Text.IsWhiteSpace(value.value[i])
  {
    !Text.IsNullOrWhiteSpace(value)
  }

  /** FormatValidator.Check: null or empty fails without consulting the pattern; otherwise the pattern decides. */
  function FormatCheck(isMatch: string -> bool, value: Option<string>): (ok: bool)
    ensures ok <==> value.Some? && value.value != [] && isMatch(value.value)
  {
    !Text.IsNullOrEmpty(value) && isMatch(value.value)
  }

  /** IValidator.Check, dispatched to the rule's class. */
  function Check(v: Validator, value: Option<string>): bool
  {
    match v
    case Required(_) => RequiredCheck(value)
    case Format(_, isMatch) => FormatCheck(isMatch, value)
  }

  /** The two rules differ on whitespace: a blank non-empty string reaches the pattern but is never "required"-valid. */
  lemma WhitespaceReachesPattern(isMatch: string -> bool)
    ensures !Check(NewRequired(), Some(" "))
    ensures Check(NewFormat(isMatch), Some(" ")) == isMatch(" ")
    ensures !Check(NewRequired(), None) && !Check(NewFormat(isMatch), None)
    ensures !Check(NewRequired(), Some("")) && !Check(NewFormat(isMatch), Some(""))
  {
    assert Text.IsWhiteSpace(' ');
  }

  /**
   * The first failing rule's message, or None when every rule accepts;
   * rules after the first failure are not consulted.
   */
  function FirstFailure(vs: seq<Validator>, value: Option<string>): Option<string>
    decreases |vs|
  {
    if vs == [] then None
    else if !Check(vs[0], value) then Some(vs[0].message)
    else FirstFailure(vs[1..], value)
  }

  /**
   * No failure is reported exactly when every rule accepts the value; a
   * reported failure is the message of a rejecting rule all of whose
   * predecessors accept.
   */
  lemma {:induction false} FirstFailureMeaning(vs: seq<Validator>, value: Option<string>)
    ensures FirstFailure(vs, value).None? <==> forall i :: 0 <= i < |vs| ==> Check(vs[i], value)
    ensures FirstFailure(vs, value).Some? ==>
      exists i :: 0 <= i < |vs| && !Check(vs[i], value) && FirstFailure(vs, value).value == vs[i].message
                  && forall j :: 0 <= j < i ==> Check(vs[j], value)
    decreases |vs|
  {
    if vs != [] && Check(vs[0], value) {
      var r := FirstFailure(vs[1..], value);
      FirstFailureMeaning(vs[1..], value);
      forall i | 1 <= i < |vs|
        ensures vs[i] == vs[1..][i - 1]
      {
      }
      if r.Some? {
        var i :| 0 <= i < |vs[1..]| && !Check(vs[1..][i], value) && r.value == vs[1..][i].message
                 && forall j :: 0 <= j < i ==> Check(vs[1..][j], value);
        assert forall j :: 0 <= j < i + 1 ==> Check(vs[j], value) by {
          forall j | 0 <= j < i + 1 ensures Check(vs[j], value) {
            if j > 0 { assert vs[j] == vs[1..][j - 1]; }
          }
        }
        assert !Check(vs[i + 1], value) && r.value == vs[i + 1].message;
      }
    }
  }

  /** Rules appended after a failing prefix never change the reported message. */
  lemma {:induction false} FirstFailureStopsEarly(vs: seq<Validator>, rest: seq<Validator>, value: Option<string>)
    requires FirstFailure(vs, value).Some?
    ensures FirstFailure(vs + rest, value) == FirstFailure(vs, value)
    decreases |vs|
  {
    if Check(vs[0], value) {
      assert (vs + rest)[1..] == vs[1..] + rest;
      FirstFailureStopsEarly(vs[1..], rest, value);
    }
  }

  /** Extending an all-passing prefix by one rule reports that rule's outcome. */
  lemma {:induction false} FirstFailureSnoc(vs: seq<Validator>, v: Validator, value: Option<string>)
    requires FirstFailure(vs, value).None?
    ensures FirstFailure(vs + [v], value) == if Check(v, value) then None else Some(v.message)
    decreases |vs|
  {
    if vs != [] {
      assert (vs + [v])[1..] == vs[1..] + [v];
      FirstFailureSnoc(vs[1..], v, value);
    }
  }
}
