/** src/components/forms/InventoryForm.jsx: the inventory-item form. */
module InventoryForm {
  import opened Wrappers
  import opened Json
  import opened Text
  import opened Sanitizer
  import opened FormRules
  import Validation
  import Documents

  /** The form data of a new item. */
  const Defaults: Doc := map[
    "name" := Str(""), "category" := Str("materials"), "quantity" := Num(0), "unit" := Str("units"),
    "minStock" := Num(10), "location" := Str(""), "notes" := Str("")]

  /** The fields `handleSubmit` escapes. */
  const SanitizedKeys: seq<string> := ["name", "location", "notes"]

  /** `validate`: a non-blank name and a quantity that is not negative. */
  function Validate(d: Doc): Errors
    requires TextLike(Field(d, "name"))
  {
    var e := Check(map[], NoText(Field(d, "name")), "name", "Item name is required");
    Check(e, Less(Field(d, "quantity"), 0), "quantity", "Quantity cannot be negative")
  }

  /** `handleSubmit`: what `onSave` receives, `None` when it is not called. */
  function HandleSubmit(d: Doc): Option<Doc>
    requires TextLike(Field(d, "name"))
  {
    Submit(d, Validate(d), SanitizedKeys)
  }

  /** The quantity and minimum-stock inputs: `parseInt(text) || 0`. */
  function SetNumber(d: Doc, field: string, parsed: Option<int>): Doc {
    d[field := Num(OrFallback(parsed, 0))]
  }

  // ---------------------------------------------------------------------------

  /** Both failures are reported together; a missing or non-numeric quantity
      is not an error here. */
  lemma ValidateMeaning(d: Doc)
    requires TextLike(Field(d, "name"))
    ensures var e := Validate(d);
      (Field(e, "name") == Some(Str("Item name is required")) <==> NoText(Field(d, "name"))) &&
      (Field(e, "quantity") == Some(Str("Quantity cannot be negative")) <==> Less(Field(d, "quantity"), 0)) &&
      (forall k :: k != "name" && k != "quantity" ==> Field(e, k).None?) &&
      (NoErrors(e) <==> !NoText(Field(d, "name")) && !Less(Field(d, "quantity"), 0))
    ensures Field(d, "quantity").None? ==> Field(Validate(d), "quantity").None?
  {
    var e := Validate(d);
    if NoText(Field(d, "name")) {
      assert "name" in e;
    } else if Less(Field(d, "quantity"), 0) {
      assert "quantity" in e;
    }
  }

  /** Input that parses to NaN becomes 0; only the edited field changes. */
  lemma SetNumberMeaning(d: Doc, field: string, parsed: Option<int>)
    ensures var r := SetNumber(d, field, parsed);
      (parsed.None? ==> Field(r, field) == Some(Num(0))) &&
      (parsed.Some? ==> Field(r, field) == Some(Num(parsed.value))) &&
      forall k :: k != field ==> Field(r, k) == Field(d, k)
  {
  }

  /** A new item holds 0 units of materials with a minimum stock of 10. */
  lemma DefaultsMeaning()
    ensures FieldIs(Defaults, "category", "materials") && FieldIs(Defaults, "unit", "units")
    ensures Field(Defaults, "quantity") == Some(Num(0)) && Field(Defaults, "minStock") == Some(Num(10))
  {
  }

  /** Submitting escapes the name, location and notes; category, unit,
      quantity and minimum stock pass through unchanged. */
  lemma HandleSubmitMeaning(d: Doc)
    requires TextLike(Field(d, "name"))
    ensures HandleSubmit(d).Some? <==> NoErrors(Validate(d))
    ensures HandleSubmit(d).Some? ==> var r := HandleSubmit(d).value;
      (forall k :: k in SanitizedKeys ==> Field(r, k) == SanitizeValue(Field(d, k))) &&
      (forall k :: k !in SanitizedKeys ==> Field(r, k) == Field(d, k))
  {
    SubmitEscapesExactly(d, Validate(d), SanitizedKeys);
  }

  /** A named item left at the default quantity of 0 passes this form, but
      the store's create treats 0 as a missing quantity, throws
      "quantity is required" and stores nothing. */
  lemma ZeroQuantityPassesFormFailsStore(d: Doc, t: Documents.Table, freshId: string, now: string)
    requires Field(d, "name").Some? && d["name"].Str? && !IsBlank(d["name"].s)
    requires Field(d, "quantity") == Some(Num(0))
    ensures HandleSubmit(d).Some?
    ensures var saved := HandleSubmit(d).value;
      Validation.Violations(saved, Documents.RequiredFields(Documents.Inventory)) == [Validation.Message("quantity")] &&
      var s := Documents.CreateDocument(t, saved, Documents.RequiredFields(Documents.Inventory), freshId, now);
      s.result.Failure? && s.table == t
  {
    NoTextMeaning(Field(d, "name"));
    ValidateMeaning(d);
    HandleSubmitMeaning(d);
    var saved := HandleSubmit(d).value;
    SanitizedNameStaysPresent(d["name"].s);
    InventoryViolations(saved);
  }

  lemma InventoryViolations(saved: Doc)
    requires Field(saved, "name").Some? && saved["name"].Str? && !IsBlank(saved["name"].s)
    requires Field(saved, "quantity") == Some(Num(0))
    ensures Validation.Violations(saved, Documents.RequiredFields(Documents.Inventory)) == [Validation.Message("quantity")]
  {
    var req := Documents.RequiredFields(Documents.Inventory);
    assert !Validation.Missing(saved, "name");
    assert Validation.Missing(saved, "quantity");
    assert req[..1] == ["name"] && req[..1][..0] == [];
  }

  /** Escaping never blanks a name that had visible characters. */
  lemma SanitizedNameStaysPresent(s: string)
    requires !IsBlank(s)
    ensures !IsBlank(SanitizeText(s))
  {
    var i :| 0 <= i < |s| && !IsJsSpace(s[i]);
    SanitizeIsPerChar(s);
    KeepsVisible(s, i);
  }

  lemma {:induction false} KeepsVisible(s: string, i: int)
    requires 0 <= i < |s| && !IsJsSpace(s[i])
    ensures !IsBlank(EscapeEach(s))
  {
    if i == 0 {
      assert EscapeEach(s)[0] == Entity(s[0])[0];
      assert Entity(s[0])[0] == s[0] || Entity(s[0])[0] == '&';
    } else {
      KeepsVisible(s[1..], i - 1);
      assert EscapeEach(s) == Entity(s[0]) + EscapeEach(s[1..]);
      var j :| 0 <= j < |EscapeEach(s[1..])| && !IsJsSpace(EscapeEach(s[1..])[j]);
      assert EscapeEach(s)[|Entity(s[0])| + j] == EscapeEach(s[1..])[j];
    }
  }
}
