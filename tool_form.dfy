/** src/components/forms/ToolForm.jsx: the tool form, including the job
    selector that shows an unassigned tool as "none". */
module ToolForm {
  import opened Wrappers
  import opened Json
  import opened Sanitizer
  import opened FormRules

  /** The form data of a new tool. */
  const Defaults: Doc := map[
    "name" := Str(""), "serialNumber" := Str(""), "category" := Str("power-tools"),
    "condition" := Str("good"), "assignedJobId" := Str(""), "lastMaintenance" := Str(""),
    "nextMaintenance" := Str(""), "notes" := Str("")]

  /** The fields `handleSubmit` escapes. */
  const SanitizedKeys: seq<string> := ["name", "serialNumber", "notes"]

  /** `validate`: only the name is required. */
  function Validate(d: Doc): Errors
    requires TextLike(Field(d, "name"))
  {
    Check(map[], NoText(Field(d, "name")), "name", "Tool name is required")
  }

  /** `handleSubmit`: what `onSave` receives, `None` when it is not called. */
  function HandleSubmit(d: Doc): Option<Doc>
    requires TextLike(Field(d, "name"))
  {
    Submit(d, Validate(d), SanitizedKeys)
  }

  /** The selector's value: `assignedJobId || 'none'`. */
  function SelectedJob(d: Doc): Value {
    if Truthy(Field(d, "assignedJobId")) then d["assignedJobId"] else Str("none")
  }

  /** Choosing `v` in the selector: 'none' is stored as ''. */
  function ChooseJob(d: Doc, v: string): Doc {
    d["assignedJobId" := Str(if v == "none" then "" else v)]
  }

  // ---------------------------------------------------------------------------

  /** The form is valid exactly when the name is present and not blank. */
  lemma ValidateMeaning(d: Doc)
    requires TextLike(Field(d, "name"))
    ensures NoErrors(Validate(d)) <==> !NoText(Field(d, "name"))
    ensures NoText(Field(d, "name")) ==> Validate(d) == map["name" := Str("Tool name is required")]
  {
  }

  /** A new tool is an unassigned power tool in good condition. */
  lemma DefaultsMeaning()
    ensures FieldIs(Defaults, "category", "power-tools") && FieldIs(Defaults, "condition", "good")
    ensures FieldIs(Defaults, "assignedJobId", "")
  {
  }

  /** A new tool shows "none" in the job selector. */
  lemma DefaultsShowNone()
    ensures SelectedJob(Defaults) == Str("none")
  {
    ShowsNone(Defaults);
  }

  lemma ShowsNone(d: Doc)
    requires Field(d, "assignedJobId") == Some(Str(""))
    ensures SelectedJob(d) == Str("none")
  {
  }

  /** Submitting escapes the name, serial number and notes and nothing else;
      an invalid form hands nothing to `onSave`. */
  lemma HandleSubmitMeaning(d: Doc)
    requires TextLike(Field(d, "name"))
    ensures HandleSubmit(d).Some? <==> !NoText(Field(d, "name"))
    ensures HandleSubmit(d).Some? ==> var r := HandleSubmit(d).value;
      (forall k :: k in SanitizedKeys ==> Field(r, k) == SanitizeValue(Field(d, k))) &&
      (forall k :: k !in SanitizedKeys ==> Field(r, k) == Field(d, k))
  {
    SubmitEscapesExactly(d, Validate(d), SanitizedKeys);
  }

  /** Whatever non-empty choice is made is what the selector shows next:
      'none' is stored as '' and '' is shown as 'none'. Only the job field
      changes. */
  lemma ChooseThenShow(d: Doc, v: string)
    requires v != ""
    ensures SelectedJob(ChooseJob(d, v)) == Str(v)
    ensures v == "none" ==> FieldIs(ChooseJob(d, v), "assignedJobId", "")
    ensures forall k :: k != "assignedJobId" ==> Field(ChooseJob(d, v), k) == Field(d, k)
  {
  }

  /** Re-choosing what the selector shows keeps a stored job id that is a
      string other than 'none', and stores '' for an unassigned tool. */
  lemma ShowThenChoose(d: Doc)
    requires SelectedJob(d).Str?
    ensures var shown := SelectedJob(d).s;
      (Truthy(Field(d, "assignedJobId")) && shown != "none" ==> ChooseJob(d, shown) == d) &&
      (!Truthy(Field(d, "assignedJobId")) ==> FieldIs(ChooseJob(d, shown), "assignedJobId", ""))
  {
  }
}
