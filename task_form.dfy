/** src/components/forms/TaskForm.jsx: the task form. */
module TaskForm {
  import opened Wrappers
  import opened Json
  import opened Sanitizer
  import opened FormRules

  /** The form data of a new task. */
  const Defaults: Doc := map[
    "title" := Str(""), "description" := Str(""), "jobId" := Str(""), "status" := Str("pending"),
    "priority" := Str("medium"), "dueDate" := Str(""), "assignedTo" := Str("")]

  /** The fields `handleSubmit` escapes. */
  const SanitizedKeys: seq<string> := ["title", "description", "assignedTo"]

  /** `validate`: a non-blank title and a job. */
  function Validate(d: Doc): Errors
    requires TextLike(Field(d, "title"))
  {
    var e := Check(map[], NoText(Field(d, "title")), "title", "Title is required");
    Check(e, !Truthy(Field(d, "jobId")), "jobId", "Job is required")
  }

  /** `handleSubmit`: what `onSave` receives, `None` when it is not called. */
  function HandleSubmit(d: Doc): Option<Doc>
    requires TextLike(Field(d, "title"))
  {
    Submit(d, Validate(d), SanitizedKeys)
  }

  // ---------------------------------------------------------------------------

  /** Both failures are reported together, each exactly when its check fails. */
  lemma ValidateMeaning(d: Doc)
    requires TextLike(Field(d, "title"))
    ensures var e := Validate(d);
      (Field(e, "title") == Some(Str("Title is required")) <==> NoText(Field(d, "title"))) &&
      (Field(e, "jobId") == Some(Str("Job is required")) <==> !Truthy(Field(d, "jobId"))) &&
      (forall k :: k != "title" && k != "jobId" ==> Field(e, k).None?) &&
      (NoErrors(e) <==> !NoText(Field(d, "title")) && Truthy(Field(d, "jobId")))
  {
    var e := Validate(d);
    if NoText(Field(d, "title")) {
      assert "title" in e;
    } else if !Truthy(Field(d, "jobId")) {
      assert "jobId" in e;
    }
  }

  /** A new task is pending, at medium priority, with no due date. */
  lemma DefaultsMeaning()
    ensures FieldIs(Defaults, "status", "pending") && FieldIs(Defaults, "priority", "medium")
    ensures FieldIs(Defaults, "dueDate", "")
  {
  }

  /** Submitting escapes the title, description and assignee; the job,
      status, priority and due date pass through unchanged. An invalid form
      hands nothing to `onSave`. */
  lemma HandleSubmitMeaning(d: Doc)
    requires TextLike(Field(d, "title"))
    ensures HandleSubmit(d).Some? <==> !NoText(Field(d, "title")) && Truthy(Field(d, "jobId"))
    ensures HandleSubmit(d).Some? ==> var r := HandleSubmit(d).value;
      (forall k :: k in SanitizedKeys ==> Field(r, k) == SanitizeValue(Field(d, k))) &&
      (forall k :: k !in SanitizedKeys ==> Field(r, k) == Field(d, k))
  {
    ValidateMeaning(d);
    SubmitEscapesExactly(d, Validate(d), SanitizedKeys);
  }
}
