/** The save and delete handlers the list pages share (src/components/pages):
    a save updates the document being edited, or creates one when nothing is
    being edited; a delete runs only once the user has confirmed it. The
    confirmation dialog's answer is supplied. */
module PageActions {
  import opened Wrappers
  import opened Json
  import opened Documents
  import opened Store

  /** `handleSave(data)`: `editingId` is the `_id` of the document being
      edited, `None` when nothing is. */
  method SaveOrCreate(store: EntityStore, kind: Kind, editingId: Option<string>, data: Doc, freshId: string, now: string)
    returns (r: Result<Doc, StoreError>)
    requires store.Valid()
    modifies store
    ensures store.Valid()
    ensures editingId.Some? ==> var s := UpdateDocument(old(store.Table(kind)), editingId.value, data, now);
      r == s.result && store.Table(kind) == s.table
    ensures editingId.None? ==> var s := CreateDocument(old(store.Table(kind)), data, RequiredFields(kind), freshId, now);
      r == s.result && store.Table(kind) == s.table
    ensures forall other: Kind :: other != kind ==> store.Table(other) == old(store.Table(other))
    ensures store.settings == old(store.settings)
  {
    if editingId.Some? {
      r := store.Update(kind, editingId.value, data, now);
    } else {
      r := store.Create(kind, data, freshId, now);
    }
  }

  /** `handleDelete(id)`: nothing happens unless `confirmed`. */
  method ConfirmDelete(store: EntityStore, kind: Kind, id: string, confirmed: bool)
    returns (r: Option<Result<string, StoreError>>)
    requires store.Valid()
    modifies store
    ensures store.Valid()
    ensures !confirmed ==> r.None? && store.Table(kind) == old(store.Table(kind))
    ensures confirmed ==> var s := DeleteDocument(old(store.Table(kind)), id);
      r == Some(s.result) && store.Table(kind) == s.table
    ensures forall other: Kind :: other != kind ==> store.Table(other) == old(store.Table(other))
    ensures store.settings == old(store.settings)
  {
    if confirmed {
      var d := store.Delete(kind, id);
      r := Some(d);
    } else {
      r := None;
    }
  }
}
