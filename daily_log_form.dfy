/** src/components/forms/DailyLogForm.jsx: the daily site-log entry form.
    Each handler maps the previous form data to the next; the clock reading
    (`format(new Date(), 'yyyy-MM-dd')`) and `parseFloat` are supplied. */
module DailyLogForm {
  import opened Wrappers
  import opened Json
  import opened Seqs
  import opened Sanitizer
  import opened FormRules

  /** `{ item: text, checked: false }`. */
  function UncheckedItem(text: string): Value {
    Obj(map["item" := Str(text), "checked" := Bool(false)])
  }

  /** The five checklist entries a new log starts with. */
  const DefaultChecklist: seq<Value> := [
    UncheckedItem("Site secured"),
    UncheckedItem("Safety equipment available"),
    UncheckedItem("Materials delivered"),
    UncheckedItem("Equipment operational"),
    UncheckedItem("Permits on site")
  ]

  /** The fields `handleSubmit` escapes. */
  const SanitizedKeys: seq<string> := ["notes", "safetyObservations"]

  /** The form data of a new log for the page's `jobId` on `today`. */
  function Defaults(jobId: Option<Value>, today: string): Doc {
    SetField(map[
      "date" := Str(today),
      "weather" := Str(""),
      "temperature" := Str(""),
      "crewPresent" := Arr([]),
      "notes" := Str(""),
      "safetyObservations" := Str(""),
      "photos" := Arr([]),
      "checklist" := Arr(DefaultChecklist),
      "hoursWorked" := Num(8)
    ], "jobId", jobId)
  }

  /** `initialData || defaults`: an edited log starts from the stored document. */
  function Initial(initialData: Option<Doc>, jobId: Option<Value>, today: string): (d: Doc)
    ensures initialData.Some? ==> d == initialData.value
    ensures initialData.None? ==> d == Defaults(jobId, today)
  {
    if initialData.Some? then initialData.value else Defaults(jobId, today)
  }

  /** `validate`: only the date is required. */
  function Validate(d: Doc): Errors {
    Check(map[], !Truthy(Field(d, "date")), "date", "Date is required")
  }

  /** `handleSubmit`: what `onSave` receives, `None` when it is not called. */
  function HandleSubmit(d: Doc): Option<Doc> {
    Submit(d, Validate(d), SanitizedKeys)
  }

  /** `removePhoto(index)`. */
  function RemovePhoto(d: Doc, index: int): Doc
    requires ListField(d, "photos")
  {
    WithList(d, "photos", RemoveIndex(ListOf(d, "photos"), index))
  }

  /** One photo read by `handlePhotoUpload`, appended when its reader
      finishes; the file contents and the time stamp are supplied. */
  function AddPhoto(d: Doc, data: string, name: string, timestamp: string): Doc
    requires ListField(d, "photos")
  {
    WithList(d, "photos", ListOf(d, "photos") +
      [Obj(map["data" := Str(data), "name" := Str(name), "timestamp" := Str(timestamp)])])
  }

  /** `toggleCrewMember(crewId)`. */
  function ToggleCrewMember(d: Doc, crewId: Value): Doc
    requires ListField(d, "crewPresent")
  {
    WithList(d, "crewPresent", Toggle(ListOf(d, "crewPresent"), crewId))
  }

  /** `{ ...item, checked: !item.checked }`. */
  function Flip(item: Value): Value {
    SetMember(item, "checked", Bool(!Truthy(MemberOf(item, "checked"))))
  }

  /** `toggleChecklistItem(index)`. */
  function ToggleChecklistItem(d: Doc, index: int): Doc
    requires ListField(d, "checklist")
  {
    WithList(d, "checklist", MapAt(ListOf(d, "checklist"), index, Flip))
  }

  /** `addChecklistItem()`. */
  function AddChecklistItem(d: Doc): Doc
    requires ListField(d, "checklist")
  {
    WithList(d, "checklist", ListOf(d, "checklist") + [UncheckedItem("")])
  }

  /** `updateChecklistItem(index, value)`. */
  function UpdateChecklistItem(d: Doc, index: int, value: string): Doc
    requires ListField(d, "checklist")
  {
    WithList(d, "checklist", MapAt(ListOf(d, "checklist"), index, (item: Value) => SetMember(item, "item", Str(value))))
  }

  /** The hours input: `parseFloat(text) || 0`, `parsed` being what
      `parseFloat` gave (`None` for NaN). */
  function SetHoursWorked(d: Doc, parsed: Option<int>): (r: Doc)
    ensures parsed.None? ==> Field(r, "hoursWorked") == Some(Num(0))
    ensures parsed.Some? ==> Field(r, "hoursWorked") == Some(Num(parsed.value))
    ensures forall k :: k != "hoursWorked" ==> Field(r, k) == Field(d, k)
  {
    d["hoursWorked" := Num(OrFallback(parsed, 0))]
  }

  // ---------------------------------------------------------------------------

  /** A new log is for today and the page's job, with eight hours, nobody
      present, no photos and five unchecked checklist entries. */
  lemma DefaultsMeaning(jobId: Option<Value>, today: string)
    ensures var d := Defaults(jobId, today);
      Field(d, "date") == Some(Str(today)) && Field(d, "jobId") == jobId &&
      Field(d, "hoursWorked") == Some(Num(8)) &&
      ListField(d, "crewPresent") && ListOf(d, "crewPresent") == [] &&
      ListField(d, "photos") && ListOf(d, "photos") == [] &&
      ListField(d, "checklist") && |ListOf(d, "checklist")| == 5 &&
      forall i :: 0 <= i < 5 ==> MemberOf(ListOf(d, "checklist")[i], "checked") == Some(Bool(false))
  {
  }

  /** The form is valid exactly when the date is filled in; otherwise the
      date is the one error reported. */
  lemma ValidateMeaning(d: Doc)
    ensures NoErrors(Validate(d)) <==> Truthy(Field(d, "date"))
    ensures !Truthy(Field(d, "date")) ==> Validate(d) == map["date" := Str("Date is required")]
  {
  }

  /** A new log for a non-empty date passes validation. */
  lemma DefaultsAreValid(jobId: Option<Value>, today: string)
    requires today != ""
    ensures NoErrors(Validate(Defaults(jobId, today)))
  {
    assert Field(Defaults(jobId, today), "date") == Some(Str(today));
  }

  /** Submitting escapes the notes and safety observations and nothing else;
      an invalid form hands nothing to `onSave`. */
  lemma HandleSubmitMeaning(d: Doc)
    ensures HandleSubmit(d).Some? <==> Truthy(Field(d, "date"))
    ensures HandleSubmit(d).Some? ==>
      Field(HandleSubmit(d).value, "notes") == SanitizeValue(Field(d, "notes")) &&
      Field(HandleSubmit(d).value, "safetyObservations") == SanitizeValue(Field(d, "safetyObservations")) &&
      forall k :: k != "notes" && k != "safetyObservations" ==> Field(HandleSubmit(d).value, k) == Field(d, k)
  {
    SubmitEscapesExactly(d, Validate(d), SanitizedKeys);
  }

  /** Removing photo `i` drops exactly that photo and keeps the others in
      order; an index out of range changes nothing. */
  lemma RemovePhotoMeaning(d: Doc, i: int)
    requires ListField(d, "photos")
    ensures var r := RemovePhoto(d, i); var ps := ListOf(d, "photos");
      ListField(r, "photos") &&
      (forall k :: k != "photos" ==> Field(r, k) == Field(d, k)) &&
      (!(0 <= i < |ps|) ==> r == d) &&
      (0 <= i < |ps| ==>
        |ListOf(r, "photos")| == |ps| - 1 &&
        multiset(ListOf(r, "photos")) + multiset{ps[i]} == multiset(ps) &&
        forall j :: 0 <= j < |ps| - 1 ==> ListOf(r, "photos")[j] == (if j < i then ps[j] else ps[j + 1]))
  {
    var ps := ListOf(d, "photos");
    if 0 <= i < |ps| {
      RemoveIndexMultiset(ps, i);
    } else {
      assert RemovePhoto(d, i) == d;
    }
  }

  /** Removing the photo just added restores the form. */
  lemma RemoveAddedPhoto(d: Doc, data: string, name: string, timestamp: string)
    requires ListField(d, "photos")
    ensures RemovePhoto(AddPhoto(d, data, name, timestamp), |ListOf(d, "photos")|) == d
  {
    var ps := ListOf(d, "photos");
    var a := AddPhoto(d, data, name, timestamp);
    assert RemoveIndex(ListOf(a, "photos"), |ps|) == ps;
  }

  /** Toggling a crew member removes every occurrence of one already present
      and appends one who is absent; nothing else in the form changes. */
  lemma ToggleCrewMemberMeaning(d: Doc, crewId: Value)
    requires ListField(d, "crewPresent")
    ensures var r := ToggleCrewMember(d, crewId); var xs := ListOf(d, "crewPresent");
      ListField(r, "crewPresent") &&
      (crewId in xs ==> crewId !in ListOf(r, "crewPresent") && |ListOf(r, "crewPresent")| < |xs|) &&
      (crewId !in xs ==> ListOf(r, "crewPresent") == xs + [crewId]) &&
      Filter(ListOf(r, "crewPresent"), (y: Value) => y != crewId) == Filter(xs, (y: Value) => y != crewId) &&
      forall k :: k != "crewPresent" ==> Field(r, k) == Field(d, k)
  {
    ToggleMeaning(ListOf(d, "crewPresent"), crewId);
    ToggleKeepsOthers(ListOf(d, "crewPresent"), crewId);
  }

  /** Toggling an absent crew member twice gives back the same form. */
  lemma ToggleCrewMemberTwice(d: Doc, crewId: Value)
    requires ListField(d, "crewPresent") && crewId !in ListOf(d, "crewPresent")
    ensures ToggleCrewMember(ToggleCrewMember(d, crewId), crewId) == d
  {
    ToggleTwiceRestores(ListOf(d, "crewPresent"), crewId);
  }

  /** Toggling entry `i` flips its `checked` flag and changes nothing else:
      not its text, not the other entries, not the length. */
  lemma ToggleChecklistItemMeaning(d: Doc, i: int)
    requires ListField(d, "checklist")
    ensures var r := ToggleChecklistItem(d, i); var xs := ListOf(d, "checklist");
      ListField(r, "checklist") && |ListOf(r, "checklist")| == |xs| &&
      (forall j :: 0 <= j < |xs| && j != i ==> ListOf(r, "checklist")[j] == xs[j]) &&
      (0 <= i < |xs| ==>
        MemberOf(ListOf(r, "checklist")[i], "checked") == Some(Bool(!Truthy(MemberOf(xs[i], "checked")))) &&
        (xs[i].Obj? ==> MemberOf(ListOf(r, "checklist")[i], "item") == MemberOf(xs[i], "item"))) &&
      forall k :: k != "checklist" ==> Field(r, k) == Field(d, k)
  {
  }

  /** Toggling an entry whose flag is a boolean twice gives back the same form. */
  lemma ToggleChecklistItemTwice(d: Doc, i: int)
    requires ListField(d, "checklist") && 0 <= i < |ListOf(d, "checklist")|
    requires var item := ListOf(d, "checklist")[i]; item.Obj? && "checked" in item.fields && item.fields["checked"].Bool?
    ensures ToggleChecklistItem(ToggleChecklistItem(d, i), i) == d
  {
    var xs := ListOf(d, "checklist");
    var ys := ListOf(ToggleChecklistItem(d, i), "checklist");
    var zs := MapAt(ys, i, Flip);
    assert zs[i].fields == xs[i].fields;
    assert zs == xs;
  }

  /** Adding an entry appends one unchecked entry with empty text. */
  lemma AddChecklistItemMeaning(d: Doc)
    requires ListField(d, "checklist")
    ensures var r := AddChecklistItem(d); var xs := ListOf(d, "checklist");
      ListField(r, "checklist") && |ListOf(r, "checklist")| == |xs| + 1 &&
      ListOf(r, "checklist")[..|xs|] == xs &&
      MemberOf(ListOf(r, "checklist")[|xs|], "item") == Some(Str("")) &&
      MemberOf(ListOf(r, "checklist")[|xs|], "checked") == Some(Bool(false)) &&
      forall k :: k != "checklist" ==> Field(r, k) == Field(d, k)
  {
  }

  /** Editing entry `i` replaces its text and keeps its `checked` flag and
      every other entry. */
  lemma UpdateChecklistItemMeaning(d: Doc, i: int, value: string)
    requires ListField(d, "checklist")
    ensures var r := UpdateChecklistItem(d, i, value); var xs := ListOf(d, "checklist");
      ListField(r, "checklist") && |ListOf(r, "checklist")| == |xs| &&
      (forall j :: 0 <= j < |xs| && j != i ==> ListOf(r, "checklist")[j] == xs[j]) &&
      (0 <= i < |xs| ==>
        MemberOf(ListOf(r, "checklist")[i], "item") == Some(Str(value)) &&
        (xs[i].Obj? ==> MemberOf(ListOf(r, "checklist")[i], "checked") == MemberOf(xs[i], "checked"))) &&
      forall k :: k != "checklist" ==> Field(r, k) == Field(d, k)
  {
  }

  /** Typing into a freshly added entry gives an unchecked entry with that text. */
  lemma AddThenType(d: Doc, value: string)
    requires ListField(d, "checklist")
    ensures var r := UpdateChecklistItem(AddChecklistItem(d), |ListOf(d, "checklist")|, value);
      ListOf(r, "checklist") == ListOf(d, "checklist") + [UncheckedItem(value)]
  {
    var xs := ListOf(d, "checklist");
    var r := UpdateChecklistItem(AddChecklistItem(d), |xs|, value);
    assert ListOf(r, "checklist")[|xs|].fields == UncheckedItem(value).fields;
  }
}
