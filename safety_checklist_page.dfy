/** src/components/pages/SafetyChecklist.jsx: the checklist templates,
    their duplication, the card preview and the save and delete handlers. */
module SafetyChecklistPage {
  import opened Wrappers
  import opened Json
  import opened Text
  import opened Seqs
  import opened Documents
  import opened Validation
  import opened Store
  import opened PageActions

  /** `[...v]`: an array's elements or a string's characters; `None` when
      `v` is not iterable and the spread throws. */
  function Spread(v: Option<Value>): (r: Option<seq<Value>>)
    ensures r.Some? <==> v.Some? && (v.value.Arr? || v.value.Str?)
    ensures v.Some? && v.value.Arr? ==> r == Some(v.value.elems)
  {
    match v
    case Some(Arr(elems)) => Some(elems)
    case Some(Str(s)) => Some(seq(|s|, i requires 0 <= i < |s| => Str([s[i]])))
    case _ => None
  }

  /** `newChecklist` of `handleDuplicate`; `None` when building it throws.
      An absent type stays absent. */
  function Duplicate(checklist: Doc): Option<Doc> {
    match Spread(Field(checklist, "items"))
    case None => None
    case Some(items) =>
      Some(SetField(map["name" := Str(ToText(Field(checklist, "name")) + " (Copy)"), "items" := Arr(items)],
                    "type", Field(checklist, "type")))
  }

  /** `handleDuplicate(checklist)`: the copy goes to `ChecklistsAPI.create`;
      `None` when building it throws and nothing is written. */
  method HandleDuplicate(store: EntityStore, checklist: Doc, freshId: string, now: string)
    returns (r: Option<Result<Doc, StoreError>>)
    requires store.Valid()
    modifies store
    ensures store.Valid()
    ensures Duplicate(checklist).None? ==> r.None? && store.checklists == old(store.checklists)
    ensures Duplicate(checklist).Some? ==>
      var s := CreateDocument(old(store.checklists), Duplicate(checklist).value, RequiredFields(Checklists), freshId, now);
      r == Some(s.result) && store.checklists == s.table
    ensures forall kind: Kind :: kind != Checklists ==> store.Table(kind) == old(store.Table(kind))
  {
    var copy := Duplicate(checklist);
    if copy.Some? {
      var c := store.Create(Checklists, copy.value, freshId, now);
      r := Some(c);
    } else {
      r := None;
    }
  }

  /** `handleSave(data)`. */
  method HandleSave(store: EntityStore, editingId: Option<string>, data: Doc, freshId: string, now: string)
    returns (r: Result<Doc, StoreError>)
    requires store.Valid()
    modifies store
    ensures store.Valid()
    ensures editingId.Some? ==> var s := UpdateDocument(old(store.checklists), editingId.value, data, now);
      r == s.result && store.checklists == s.table
    ensures editingId.None? ==> var s := CreateDocument(old(store.checklists), data, RequiredFields(Checklists), freshId, now);
      r == s.result && store.checklists == s.table
    ensures forall kind: Kind :: kind != Checklists ==> store.Table(kind) == old(store.Table(kind))
  {
    r := SaveOrCreate(store, Checklists, editingId, data, freshId, now);
  }

  /** `handleDelete(id)` after the "Delete this checklist template?" prompt. */
  method HandleDelete(store: EntityStore, id: string, confirmed: bool) returns (r: Option<Result<string, StoreError>>)
    requires store.Valid()
    modifies store
    ensures store.Valid()
    ensures confirmed ==> var s := DeleteDocument(old(store.checklists), id);
      r == Some(s.result) && store.checklists == s.table
    ensures !confirmed ==> r.None? && store.checklists == old(store.checklists)
    ensures forall kind: Kind :: kind != Checklists ==> store.Table(kind) == old(store.Table(kind))
  {
    r := ConfirmDelete(store, Checklists, id, confirmed);
  }

  /** `checklist.items?.length || 0`. */
  function ItemCount(checklist: Doc): nat {
    match Field(checklist, "items")
    case Some(Arr(elems)) => |elems|
    case Some(Str(s)) => |s|
    case _ => 0
  }

  /** The items the card lists: `checklist.items?.slice(0, 6)`. */
  function PreviewItems(checklist: Doc): seq<Value> {
    match Field(checklist, "items")
    case Some(Arr(elems)) => Take(elems, 6)
    case _ => []
  }

  /** The "+N more items" line, `None` when it is not shown. */
  function MoreItems(checklist: Doc): Option<string> {
    if ItemCount(checklist) > 6 then Some("+" + NatToString(ItemCount(checklist) - 6) + " more items") else None
  }

  // ---------------------------------------------------------------------------

  /** The copy has the original's name followed by " (Copy)", its type and
      its items, and no other field: no id, no dates, nothing else. */
  lemma DuplicateMeaning(checklist: Doc)
    requires Field(checklist, "items").Some? && checklist["items"].Arr?
    ensures Duplicate(checklist).Some?
    ensures var c := Duplicate(checklist).value;
      Field(c, "name") == Some(Str(ToText(Field(checklist, "name")) + " (Copy)")) &&
      Field(c, "type") == Field(checklist, "type") &&
      Field(c, "items") == Field(checklist, "items") &&
      c.Keys <= {"name", "type", "items"}
  {
  }

  /** Whatever the original held, the copy's name is never blank, so a copy
      under an unused id is always stored. */
  lemma DuplicateIsStored(t: Table, checklist: Doc, freshId: string, now: string)
    requires Duplicate(checklist).Some? && freshId != "" && freshId !in t
    ensures var s := CreateDocument(t, Duplicate(checklist).value, RequiredFields(Checklists), freshId, now);
      s.result.Success? && freshId in s.table && s.table - {freshId} == t
  {
    var c := Duplicate(checklist).value;
    var name := ToText(Field(checklist, "name")) + " (Copy)";
    assert Field(c, "name") == Some(Str(name));
    assert name[|name| - 1] == ')';
    assert !IsBlank(name);
    assert RequiredFields(Checklists) == ["name"];
    assert !Missing(c, "name");
    assert "_id" !in c;
    var n := NewDoc(c, freshId, now);
    assert Field(n, "_id") == Some(Str(freshId));
  }

  /** Duplicating writes only the new template: the original, and every
      other stored template, are left as they were. */
  lemma DuplicateLeavesOriginal(t: Table, id: string, checklist: Doc, freshId: string, now: string)
    requires id in t && t[id] == checklist && Duplicate(checklist).Some?
    ensures var s := CreateDocument(t, Duplicate(checklist).value, RequiredFields(Checklists), freshId, now);
      id in s.table && s.table[id] == checklist
  {
  }

  /** The card lists the first `min(6, n)` items and adds "+(n - 6) more
      items" exactly when there are more than six. */
  lemma PreviewMeaning(checklist: Doc)
    requires Field(checklist, "items").Some? && checklist["items"].Arr?
    ensures var xs := checklist["items"].elems;
      PreviewItems(checklist) == xs[..if |xs| < 6 then |xs| else 6] &&
      (MoreItems(checklist).Some? <==> |xs| > 6) &&
      (|xs| > 6 ==> MoreItems(checklist) == Some("+" + NatToString(|xs| - 6) + " more items")) &&
      |PreviewItems(checklist)| + (if |xs| > 6 then |xs| - 6 else 0) == |xs|
  {
    var xs := checklist["items"].elems;
    assert PreviewItems(checklist) == Take(xs, 6);
  }

  /** A template without items reads "0 items" and lists nothing. */
  lemma NoItemsPreview(checklist: Doc)
    requires Field(checklist, "items").None?
    ensures ItemCount(checklist) == 0 && PreviewItems(checklist) == [] && MoreItems(checklist).None?
  {
  }
}
