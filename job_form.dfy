/** src/components/forms/JobForm.jsx: the job form. */
module JobForm {
  import opened Wrappers
  import opened Json
  import opened Text
  import opened Sanitizer
  import opened FormRules

  /** The form data of a new job. */
  const Defaults: Doc := map[
    "name" := Str(""), "address" := Str(""), "client" := Str(""),
    "status" := Str("active"), "progress" := Num(0),
    "startDate" := Str(""), "expectedEndDate" := Str(""), "notes" := Str("")]

  /** The fields `handleSubmit` escapes. */
  const SanitizedKeys: seq<string> := ["name", "address", "client", "notes"]

  /** The form data together with its errors object. */
  datatype State = State(form: Doc, errors: Errors)

  /** `validate`: a non-blank name and a non-blank address. */
  function Validate(d: Doc): Errors
    requires TextLike(Field(d, "name")) && TextLike(Field(d, "address"))
  {
    var e := Check(map[], NoText(Field(d, "name")), "name", "Job name is required");
    Check(e, NoText(Field(d, "address")), "address", "Address is required")
  }

  /** `handleSubmit`: what `onSave` receives, `None` when it is not called. */
  function HandleSubmit(d: Doc): Option<Doc>
    requires TextLike(Field(d, "name")) && TextLike(Field(d, "address"))
  {
    Submit(d, Validate(d), SanitizedKeys)
  }

  /** `handleChange(field, value)`. */
  function HandleChange(s: State, field: string, value: Value): State {
    State(s.form[field := value], ClearError(s.errors, field))
  }

  // ---------------------------------------------------------------------------

  /** A new job is active at 0 % progress, and cannot be saved until it has
      a name and an address. */
  lemma DefaultsMeaning()
    ensures FieldIs(Defaults, "status", "active") && Field(Defaults, "progress") == Some(Num(0))
    ensures Field(Validate(Defaults), "name") == Some(Str("Job name is required"))
    ensures Field(Validate(Defaults), "address") == Some(Str("Address is required"))
  {
    BlankFormFails(Defaults);
  }

  lemma BlankFormFails(d: Doc)
    requires Field(d, "name") == Some(Str("")) && Field(d, "address") == Some(Str(""))
    ensures Field(Validate(d), "name") == Some(Str("Job name is required"))
    ensures Field(Validate(d), "address") == Some(Str("Address is required"))
  {
    ValidateMeaning(d);
  }

  /** Each failure is reported exactly when its field is absent or blank,
      and both are reported together. */
  lemma ValidateMeaning(d: Doc)
    requires TextLike(Field(d, "name")) && TextLike(Field(d, "address"))
    ensures var e := Validate(d);
      (Field(e, "name") == Some(Str("Job name is required")) <==> NoText(Field(d, "name"))) &&
      (Field(e, "address") == Some(Str("Address is required")) <==> NoText(Field(d, "address"))) &&
      (forall k :: k != "name" && k != "address" ==> Field(e, k).None?) &&
      (NoErrors(e) <==> !NoText(Field(d, "name")) && !NoText(Field(d, "address")))
  {
    var e := Validate(d);
    if NoText(Field(d, "name")) {
      assert "name" in e;
    } else if NoText(Field(d, "address")) {
      assert "address" in e;
    }
  }

  /** Submitting escapes the name, address, client and notes and nothing
      else; status, progress and the dates pass through unchanged. */
  lemma HandleSubmitMeaning(d: Doc)
    requires TextLike(Field(d, "name")) && TextLike(Field(d, "address"))
    ensures HandleSubmit(d).Some? <==> NoErrors(Validate(d))
    ensures HandleSubmit(d).Some? ==> var r := HandleSubmit(d).value;
      (forall k :: k in SanitizedKeys ==> Field(r, k) == SanitizeValue(Field(d, k))) &&
      (forall k :: k !in SanitizedKeys ==> Field(r, k) == Field(d, k))
  {
    SubmitEscapesExactly(d, Validate(d), SanitizedKeys);
  }

  /** Editing a stored job and saving it escapes its name again: a stored
      "&amp;" becomes "&amp;amp;". */
  lemma EditReescapesName(stored: Doc, rest: string)
    requires Field(stored, "name") == Some(Str("&amp;" + rest))
    requires TextLike(Field(stored, "address")) && !NoText(Field(stored, "address"))
    ensures HandleSubmit(stored).Some?
    ensures Field(HandleSubmit(stored).value, "name") == Some(Str("&amp;amp;" + SanitizeText(rest)))
  {
    var name := "&amp;" + rest;
    assert name[0] == '&';
    NoTextMeaning(Field(stored, "name"));
    ValidateMeaning(stored);
    HandleSubmitMeaning(stored);
    StoredAmpersandEscapedAgain(rest);
  }

  /** A change sets exactly one field and clears only that field's message. */
  lemma HandleChangeMeaning(s: State, field: string, value: Value)
    ensures var r := HandleChange(s, field, value);
      Field(r.form, field) == Some(value) &&
      (forall k :: k != field ==> Field(r.form, k) == Field(s.form, k)) &&
      (Truthy(Field(s.errors, field)) ==> Field(r.errors, field) == Some(Null)) &&
      (!Truthy(Field(s.errors, field)) ==> r.errors == s.errors) &&
      forall k :: k != field ==> Field(r.errors, k) == Field(s.errors, k)
  {
  }
}
