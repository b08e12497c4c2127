/** src/components/forms/ChecklistForm.jsx: the checklist-template form.
    Its state is the form data, the errors object and the text of the
    "new item" input; each handler maps one state to the next. */
module ChecklistForm {
  import opened Wrappers
  import opened Json
  import opened Text
  import opened Seqs
  import opened Sanitizer
  import opened FormRules

  /** The three built-in templates of `defaultTemplates`, by type. */
  function TemplateItems(templateType: string): (r: Option<seq<string>>)
    ensures r.Some? <==> templateType in {"safety", "opening", "closing"}
  {
    if templateType == "safety" then Some([
      "PPE inspection completed",
      "Fire extinguishers accessible",
      "First aid kit stocked",
      "Emergency exits clear",
      "Safety signage visible",
      "Electrical cords inspected",
      "Scaffolding secured",
      "Fall protection in place"])
    else if templateType == "opening" then Some([
      "Site secured overnight",
      "Equipment accounted for",
      "Weather conditions assessed",
      "Crew briefing completed",
      "Materials inventory checked",
      "Permits on display"])
    else if templateType == "closing" then Some([
      "Tools secured",
      "Equipment shut down",
      "Site cleaned",
      "Hazards marked",
      "Security measures activated",
      "Daily log completed"])
    else None
  }

  /** Strings as list elements. */
  function Strs(ss: seq<string>): (r: seq<Value>)
    ensures |r| == |ss| && forall i :: 0 <= i < |ss| ==> r[i] == Str(ss[i])
  {
    seq(|ss|, i requires 0 <= i < |ss| => Str(ss[i]))
  }

  /** The form data of a new template. */
  const Defaults: Doc := map["name" := Str(""), "type" := Str("custom"), "items" := Arr([])]

  /** The form together with its errors and the "new item" input. */
  datatype State = State(form: Doc, errors: Errors, newItem: string)

  /** The state the dialog opens with: `initialData || defaults`, no errors,
      an empty input. */
  function Open(initialData: Option<Doc>): (s: State)
    ensures s.errors == map[] && s.newItem == ""
    ensures s.form == if initialData.Some? then initialData.value else Defaults
  {
    State(if initialData.Some? then initialData.value else Defaults, map[], "")
  }

  /** `validate`: a non-blank name and at least one item. */
  function Validate(d: Doc): Errors
    requires TextLike(Field(d, "name")) && ListField(d, "items")
  {
    var e := Check(map[], NoText(Field(d, "name")), "name", "Checklist name is required");
    Check(e, |ListOf(d, "items")| == 0, "items", "Add at least one item")
  }

  /** `sanitizeInput(item)` for a list element. */
  function SanitizeElement(x: Value): (r: Value)
    ensures Some(r) == SanitizeValue(Some(x))
  {
    if x.Str? then Str(SanitizeText(x.s)) else x
  }

  /** `items.map(item => sanitizeInput(item))`. */
  function SanitizeElements(xs: seq<Value>): (r: seq<Value>)
    ensures |r| == |xs| && forall i :: 0 <= i < |xs| ==> r[i] == SanitizeElement(xs[i])
  {
    seq(|xs|, i requires 0 <= i < |xs| => SanitizeElement(xs[i]))
  }

  /** `handleSubmit`: what `onSave` receives, `None` when it is not called. */
  function HandleSubmit(d: Doc): Option<Doc>
    requires TextLike(Field(d, "name")) && ListField(d, "items")
  {
    if NoErrors(Validate(d)) then
      Some(WithList(SanitizeFields(d, ["name"]), "items", SanitizeElements(ListOf(d, "items"))))
    else None
  }

  /** `addItem()`: a non-blank input is appended trimmed, the input is
      cleared and an items error is cleared; a blank input changes nothing. */
  function AddItem(s: State): State
    requires Trim(s.newItem) != "" ==> ListField(s.form, "items")
  {
    if Trim(s.newItem) != "" then
      State(WithList(s.form, "items", ListOf(s.form, "items") + [Str(Trim(s.newItem))]),
            ClearError(s.errors, "items"), "")
    else s
  }

  /** `removeItem(index)`. */
  function RemoveItem(d: Doc, index: int): Doc
    requires ListField(d, "items")
  {
    WithList(d, "items", RemoveIndex(ListOf(d, "items"), index))
  }

  /** `loadTemplate(templateType)`. */
  function LoadTemplate(d: Doc, templateType: string): Doc {
    match TemplateItems(templateType)
    case None => d
    case Some(items) => WithList(d["type" := Str(templateType)], "items", Strs(items))
  }

  // ---------------------------------------------------------------------------

  /** Both failures are reported together: the name error exactly when the
      name is absent or blank, the items error exactly when there are none. */
  lemma ValidateMeaning(d: Doc)
    requires TextLike(Field(d, "name")) && ListField(d, "items")
    ensures var e := Validate(d);
      (Field(e, "name") == Some(Str("Checklist name is required")) <==> NoText(Field(d, "name"))) &&
      (Field(e, "items") == Some(Str("Add at least one item")) <==> ListOf(d, "items") == []) &&
      (forall k :: k != "name" && k != "items" ==> Field(e, k).None?) &&
      (NoErrors(e) <==> !NoText(Field(d, "name")) && ListOf(d, "items") != [])
  {
    var e := Validate(d);
    if !NoText(Field(d, "name")) && ListOf(d, "items") != [] {
      assert e == map[];
    } else if NoText(Field(d, "name")) {
      assert "name" in e;
    } else {
      assert "items" in e;
    }
  }

  /** A new template is custom, empty and fails on both counts. */
  lemma DefaultsMeaning()
    ensures FieldIs(Defaults, "type", "custom") && ListField(Defaults, "items") && ListOf(Defaults, "items") == []
    ensures Validate(Defaults) == map["name" := Str("Checklist name is required"), "items" := Str("Add at least one item")]
  {
    BlankTemplateFails(Defaults);
  }

  lemma BlankTemplateFails(d: Doc)
    requires Field(d, "name") == Some(Str("")) && ListField(d, "items") && ListOf(d, "items") == []
    ensures Validate(d) == map["name" := Str("Checklist name is required"), "items" := Str("Add at least one item")]
  {
    assert Trim("") == "";
  }

  /** Submitting escapes the name and every item, keeping the number, the
      order and the kind of the items; nothing else changes. */
  lemma HandleSubmitMeaning(d: Doc)
    requires TextLike(Field(d, "name")) && ListField(d, "items")
    ensures HandleSubmit(d).Some? <==> NoErrors(Validate(d))
    ensures HandleSubmit(d).Some? ==> var r := HandleSubmit(d).value; var xs := ListOf(d, "items");
      Field(r, "name") == SanitizeValue(Field(d, "name")) &&
      ListField(r, "items") && |ListOf(r, "items")| == |xs| &&
      (forall i :: 0 <= i < |xs| ==> Some(ListOf(r, "items")[i]) == SanitizeValue(Some(xs[i]))) &&
      (forall i :: 0 <= i < |xs| ==> ListOf(r, "items")[i].Str? == xs[i].Str?) &&
      forall k :: k != "name" && k != "items" ==> Field(r, k) == Field(d, k)
  {
  }

  /** A blank input changes nothing; any other input is appended once,
      trimmed, the input is emptied and only the items error is cleared. */
  lemma AddItemMeaning(s: State)
    requires Trim(s.newItem) != "" ==> ListField(s.form, "items")
    ensures IsBlank(s.newItem) ==> AddItem(s) == s
    ensures !IsBlank(s.newItem) ==> var r := AddItem(s);
      ListOf(r.form, "items") == ListOf(s.form, "items") + [Str(Trim(s.newItem))] &&
      Trim(s.newItem) != "" &&
      r.newItem == "" &&
      (forall k :: k != "items" ==> Field(r.form, k) == Field(s.form, k)) &&
      r.errors == ClearError(s.errors, "items")
  {
    TrimEmptyIffBlank(s.newItem);
  }

  /** After an item has been added the items check passes. */
  lemma AddItemSatisfiesItemsCheck(s: State)
    requires !IsBlank(s.newItem) && ListField(s.form, "items") && TextLike(Field(s.form, "name"))
    ensures TextLike(Field(AddItem(s).form, "name")) && ListField(AddItem(s).form, "items")
    ensures Field(Validate(AddItem(s).form), "items").None?
  {
    TrimEmptyIffBlank(s.newItem);
  }

  /** Removing item `i` drops exactly that item and keeps the rest in order;
      an index out of range changes nothing. */
  lemma RemoveItemMeaning(d: Doc, i: int)
    requires ListField(d, "items")
    ensures var r := RemoveItem(d, i); var xs := ListOf(d, "items");
      ListField(r, "items") &&
      (forall k :: k != "items" ==> Field(r, k) == Field(d, k)) &&
      (!(0 <= i < |xs|) ==> r == d) &&
      (0 <= i < |xs| ==>
        |ListOf(r, "items")| == |xs| - 1 &&
        multiset(ListOf(r, "items")) + multiset{xs[i]} == multiset(xs) &&
        forall j :: 0 <= j < |xs| - 1 ==> ListOf(r, "items")[j] == (if j < i then xs[j] else xs[j + 1]))
  {
    var xs := ListOf(d, "items");
    if 0 <= i < |xs| {
      RemoveIndexMultiset(xs, i);
    } else {
      assert RemoveItem(d, i) == d;
    }
  }

  /** Removing the item just added gives back the same items. */
  lemma RemoveAddedItem(s: State)
    requires !IsBlank(s.newItem) && ListField(s.form, "items")
    ensures ListOf(RemoveItem(AddItem(s).form, |ListOf(s.form, "items")|), "items") == ListOf(s.form, "items")
  {
    TrimEmptyIffBlank(s.newItem);
    var xs := ListOf(s.form, "items");
    assert RemoveIndex(ListOf(AddItem(s).form, "items"), |xs|) == xs;
  }

  /** Loading a built-in template sets its type and replaces the items with
      its 8, 6 or 6 entries; any other type leaves the form as it was. */
  lemma LoadTemplateMeaning(d: Doc, templateType: string)
    ensures TemplateItems(templateType).None? ==> LoadTemplate(d, templateType) == d
    ensures TemplateItems(templateType).Some? ==> var r := LoadTemplate(d, templateType);
      FieldIs(r, "type", templateType) && ListField(r, "items") &&
      ListOf(r, "items") == Strs(TemplateItems(templateType).value) &&
      (forall k :: k != "type" && k != "items" ==> Field(r, k) == Field(d, k))
    ensures |Strs(TemplateItems("safety").value)| == 8
    ensures |Strs(TemplateItems("opening").value)| == 6
    ensures |Strs(TemplateItems("closing").value)| == 6
  {
  }

  /** A loaded template always satisfies the items check. */
  lemma LoadedTemplateHasItems(d: Doc, templateType: string)
    requires TemplateItems(templateType).Some? && TextLike(Field(d, "name"))
    ensures ListField(LoadTemplate(d, templateType), "items")
    ensures Field(Validate(LoadTemplate(d, templateType)), "items").None?
  {
    LoadTemplateMeaning(d, templateType);
    assert |TemplateItems(templateType).value| >= 6;
  }
}
