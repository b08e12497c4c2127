/** src/components/forms/CrewForm.jsx: the crew-member form. */
module CrewForm {
  import opened Wrappers
  import opened Json
  import opened Sanitizer
  import opened FormRules

  /** The eight text fields of the form; all are escaped on submit. */
  const TextKeys: seq<string> := ["name", "role", "phone", "email", "emergencyContact",
    "emergencyPhone", "certifications", "notes"]

  /** The form data of a new member: every field empty. */
  const Defaults: Doc := map[
    "name" := Str(""), "role" := Str(""), "phone" := Str(""), "email" := Str(""),
    "emergencyContact" := Str(""), "emergencyPhone" := Str(""), "certifications" := Str(""),
    "notes" := Str("")]

  /** `validate`: only the name is required. */
  function Validate(d: Doc): Errors
    requires TextLike(Field(d, "name"))
  {
    Check(map[], NoText(Field(d, "name")), "name", "Name is required")
  }

  /** `handleSubmit`: what `onSave` receives, `None` when it is not called. */
  function HandleSubmit(d: Doc): Option<Doc>
    requires TextLike(Field(d, "name"))
  {
    Submit(d, Validate(d), TextKeys)
  }

  // ---------------------------------------------------------------------------

  /** The form is valid exactly when the name is present and not blank. */
  lemma ValidateMeaning(d: Doc)
    requires TextLike(Field(d, "name"))
    ensures NoErrors(Validate(d)) <==> !NoText(Field(d, "name"))
    ensures NoText(Field(d, "name")) ==> Validate(d) == map["name" := Str("Name is required")]
  {
  }

  /** Every field of a new member is the empty string. */
  lemma DefaultsMeaning()
    ensures Defaults.Keys == set k | k in TextKeys
    ensures forall k :: k in Defaults ==> Defaults[k] == Str("")
  {
  }

  /** Submitting escapes exactly the eight text fields; anything else, such
      as the `_id` of an edited member, passes through unchanged. An invalid
      form hands nothing to `onSave`. */
  lemma HandleSubmitMeaning(d: Doc)
    requires TextLike(Field(d, "name"))
    ensures HandleSubmit(d).Some? <==> !NoText(Field(d, "name"))
    ensures HandleSubmit(d).Some? ==> var r := HandleSubmit(d).value;
      (forall k :: k in TextKeys ==> Field(r, k) == SanitizeValue(Field(d, k))) &&
      (forall k :: k !in TextKeys ==> Field(r, k) == Field(d, k)) &&
      Field(r, "_id") == Field(d, "_id")
  {
    SubmitEscapesExactly(d, Validate(d), TextKeys);
    IdNotText(TextKeys);
  }

  lemma IdNotText(keys: seq<string>)
    requires keys == TextKeys
    ensures "_id" !in keys
  {
    forall i | 0 <= i < |keys|
      ensures keys[i] != "_id"
    {
      assert keys[i][0] != '_';
    }
  }
}
