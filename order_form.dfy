/** src/components/forms/OrderForm.jsx: the material-order form. */
module OrderForm {
  import opened Wrappers
  import opened Json
  import opened Sanitizer
  import opened FormRules

  /** The form data of a new order. */
  const Defaults: Doc := map[
    "item" := Str(""), "quantity" := Num(1), "unit" := Str("units"), "jobId" := Str(""),
    "status" := Str("pending"), "priority" := Str("medium"), "supplier" := Str(""),
    "expectedDelivery" := Str(""), "notes" := Str(""), "cost" := Str("")]

  /** The fields `handleSubmit` escapes. */
  const SanitizedKeys: seq<string> := ["item", "supplier", "notes"]

  /** `!quantity || quantity < 1`. */
  predicate QuantityFails(v: Option<Value>) {
    !Truthy(v) || Less(v, 1)
  }

  /** `validate`: a non-blank item, a job and a quantity of at least one. */
  function Validate(d: Doc): Errors
    requires TextLike(Field(d, "item"))
  {
    var e := Check(map[], NoText(Field(d, "item")), "item", "Item name is required");
    var e := Check(e, !Truthy(Field(d, "jobId")), "jobId", "Job is required");
    Check(e, QuantityFails(Field(d, "quantity")), "quantity", "Valid quantity required")
  }

  /** `handleSubmit`: what `onSave` receives, `None` when it is not called. */
  function HandleSubmit(d: Doc): Option<Doc>
    requires TextLike(Field(d, "item"))
  {
    Submit(d, Validate(d), SanitizedKeys)
  }

  /** The quantity input: `parseInt(text) || 1`, `parsed` being what
      `parseInt` gave (`None` for NaN). */
  function SetQuantity(d: Doc, parsed: Option<int>): Doc {
    d["quantity" := Num(OrFallback(parsed, 1))]
  }

  // ---------------------------------------------------------------------------

  /** For a number the quantity check is exactly "less than one". */
  lemma QuantityRule(v: Option<Value>)
    ensures v.Some? && v.value.Num? ==> (QuantityFails(v) <==> v.value.n < 1)
    ensures v.None? || v == Some(Null) ==> QuantityFails(v)
  {
  }

  /** The three failures are each reported exactly when their check fails,
      all together, and the form is valid only when none does. */
  lemma ValidateMeaning(d: Doc)
    requires TextLike(Field(d, "item"))
    ensures var e := Validate(d);
      (Field(e, "item") == Some(Str("Item name is required")) <==> NoText(Field(d, "item"))) &&
      (Field(e, "jobId") == Some(Str("Job is required")) <==> !Truthy(Field(d, "jobId"))) &&
      (Field(e, "quantity") == Some(Str("Valid quantity required")) <==> QuantityFails(Field(d, "quantity"))) &&
      (forall k :: k != "item" && k != "jobId" && k != "quantity" ==> Field(e, k).None?) &&
      (NoErrors(e) <==> !NoText(Field(d, "item")) && Truthy(Field(d, "jobId")) && !QuantityFails(Field(d, "quantity")))
  {
    var e := Validate(d);
    if NoText(Field(d, "item")) {
      assert "item" in e;
    } else if !Truthy(Field(d, "jobId")) {
      assert "jobId" in e;
    } else if QuantityFails(Field(d, "quantity")) {
      assert "quantity" in e;
    }
  }

  /** Input that parses to NaN or 0 becomes 1; the quantity check then
      fails only for a negative number. */
  lemma SetQuantityMeaning(d: Doc, parsed: Option<int>)
    ensures var r := SetQuantity(d, parsed);
      (parsed.None? || parsed == Some(0) ==> Field(r, "quantity") == Some(Num(1))) &&
      (parsed.Some? && parsed.value != 0 ==> Field(r, "quantity") == Some(Num(parsed.value))) &&
      (QuantityFails(Field(r, "quantity")) <==> parsed.Some? && parsed.value < 0) &&
      forall k :: k != "quantity" ==> Field(r, k) == Field(d, k)
  {
  }

  /** A new order asks for one unit, pending, at medium priority. */
  lemma DefaultsMeaning()
    ensures Field(Defaults, "quantity") == Some(Num(1)) && FieldIs(Defaults, "unit", "units")
    ensures FieldIs(Defaults, "status", "pending") && FieldIs(Defaults, "priority", "medium")
  {
  }

  /** A new order is rejected for its blank item and missing job, but not
      for its quantity. */
  lemma DefaultsRejected()
    ensures Field(Validate(Defaults), "item").Some? && Field(Validate(Defaults), "jobId").Some?
    ensures Field(Validate(Defaults), "quantity").None?
    ensures HandleSubmit(Defaults).None?
  {
    BlankOrderFails(Defaults);
  }

  lemma BlankOrderFails(d: Doc)
    requires Field(d, "item") == Some(Str("")) && Field(d, "jobId") == Some(Str("")) && Field(d, "quantity") == Some(Num(1))
    ensures Field(Validate(d), "item").Some? && Field(Validate(d), "jobId").Some?
    ensures Field(Validate(d), "quantity").None?
    ensures HandleSubmit(d).None?
  {
    ValidateMeaning(d);
  }

  /** Submitting escapes the item, supplier and notes and nothing else; an
      invalid form hands nothing to `onSave`. */
  lemma HandleSubmitMeaning(d: Doc)
    requires TextLike(Field(d, "item"))
    ensures HandleSubmit(d).Some? <==> NoErrors(Validate(d))
    ensures HandleSubmit(d).Some? ==> var r := HandleSubmit(d).value;
      (forall k :: k in SanitizedKeys ==> Field(r, k) == SanitizeValue(Field(d, k))) &&
      (forall k :: k !in SanitizedKeys ==> Field(r, k) == Field(d, k))
  {
    SubmitEscapesExactly(d, Validate(d), SanitizedKeys);
  }
}
