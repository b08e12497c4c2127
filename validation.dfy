/** `validateRequired` (src/components/db/database.jsx): the required-field
    check every `create` runs before anything is stored. */
module Validation {
  import opened Json
  import opened Text

  /** A field fails the check when it is falsy or a string of white space only. */
  predicate Missing(data: Doc, field: string) {
    !FieldTruthy(data, field) || (data[field].Str? && IsBlank(data[field].s))
  }

  function Message(field: string): string {
    field + " is required"
  }

  /** The messages for the missing fields, in the order the fields are listed. */
  function Violations(data: Doc, required: seq<string>): (errs: seq<string>)
    ensures |errs| <= |required|
    ensures errs == [] <==> forall i :: 0 <= i < |required| ==> !Missing(data, required[i])
    ensures forall i :: 0 <= i < |required| && Missing(data, required[i]) ==> Message(required[i]) in errs
    ensures forall e :: e in errs ==> exists i :: 0 <= i < |required| && Missing(data, required[i]) && e == Message(required[i])
  {
    if required == [] then []
    else
      var init := required[..|required| - 1];
      var f := required[|required| - 1];
      var errs := Violations(data, init);
      assert forall i :: 0 <= i < |init| ==> init[i] == required[i];
      if Missing(data, f) then errs + [Message(f)] else errs
  }

  /** `validateRequired(data, requiredFields)`. */
  method ValidateRequired(data: Doc, required: seq<string>) returns (errors: seq<string>)
    ensures errors == Violations(data, required)
  {
    errors := [];
    var i := 0;
    while i < |required|
      invariant 0 <= i <= |required|
      invariant errors == Violations(data, required[..i])
    {
      var field := required[i];
      assert required[..i + 1][..i] == required[..i];
      var missing := !FieldTruthy(data, field);
      if !missing && data[field].Str? {
        TrimEmptyIffBlank(data[field].s);
        missing := Trim(data[field].s) == "";
      }
      if missing {
        errors := errors + [Message(field)];
      }
      i := i + 1;
    }
    assert required[..i] == required;
  }

  /** The text of the error `createDocument` throws: the messages joined with ", ". */
  function ErrorText(errs: seq<string>): string {
    Join(errs, ", ")
  }

  /** Fields listed twice are reported twice. */
  lemma DuplicateFieldReportedTwice(data: Doc, f: string)
    requires Missing(data, f)
    ensures Violations(data, [f, f]) == [Message(f), Message(f)]
  {
    assert [f, f][..1] == [f];
    assert [f][..0] == [];
  }

  /** Zero, `false` and `null` are missing values: a quantity of 0 fails the check. */
  lemma ZeroIsMissing(data: Doc, f: string)
    requires f in data && data[f] in {Num(0), Bool(false), Null, Str("")}
    ensures Violations(data, [f]) == [Message(f)]
  {
    assert [f][..0] == [];
  }
}
