/** src/components/pages/Inventory.jsx: the searchable stock list, its
    low-stock markers and alert, and the save and delete handlers. */
module InventoryPage {
  import opened Wrappers
  import opened Json
  import opened Text
  import opened Seqs
  import opened Documents
  import opened Store
  import opened Search
  import opened PageActions

  /** `filteredInventory`: `None` when a name or category that is neither a
      string nor `null` makes `toLowerCase` throw. */
  function FilteredInventory(items: seq<Doc>, searchTerm: string): Option<seq<Doc>> {
    SearchList(items, InventoryFields, Lower(searchTerm))
  }

  /** `item.minStock || 10`, as the number the comparison sees; `None`
      when it is not a number. */
  function Threshold(item: Doc): Option<int> {
    if FieldTruthy(item, "minStock") then NumberOf(Field(item, "minStock")) else Some(10)
  }

  /** `item.quantity <= (item.minStock || 10)`. */
  predicate IsLow(item: Doc) {
    Threshold(item).Some? && LessEq(Field(item, "quantity"), Threshold(item).value)
  }

  /** `lowStockItems`. */
  function LowStockItems(items: seq<Doc>): seq<Doc> {
    Filter(items, (item: Doc) => IsLow(item))
  }

  /** The alert: `None` when hidden, otherwise the count it shows. */
  function LowStockAlert(items: seq<Doc>): Option<nat> {
    if |LowStockItems(items)| > 0 then Some(|LowStockItems(items)|) else None
  }

  /** `handleSave(data)`. */
  method HandleSave(store: EntityStore, editingId: Option<string>, data: Doc, freshId: string, now: string)
    returns (r: Result<Doc, StoreError>)
    requires store.Valid()
    modifies store
    ensures store.Valid()
    ensures editingId.Some? ==> var s := UpdateDocument(old(store.inventory), editingId.value, data, now);
      r == s.result && store.inventory == s.table
    ensures editingId.None? ==> var s := CreateDocument(old(store.inventory), data, RequiredFields(Inventory), freshId, now);
      r == s.result && store.inventory == s.table
    ensures forall kind: Kind :: kind != Inventory ==> store.Table(kind) == old(store.Table(kind))
  {
    r := SaveOrCreate(store, Inventory, editingId, data, freshId, now);
  }

  /** `handleDelete(id)` after the "Delete this item?" prompt. */
  method HandleDelete(store: EntityStore, id: string, confirmed: bool) returns (r: Option<Result<string, StoreError>>)
    requires store.Valid()
    modifies store
    ensures store.Valid()
    ensures confirmed ==> var s := DeleteDocument(old(store.inventory), id);
      r == Some(s.result) && store.inventory == s.table
    ensures !confirmed ==> r.None? && store.inventory == old(store.inventory)
    ensures forall kind: Kind :: kind != Inventory ==> store.Table(kind) == old(store.Table(kind))
  {
    r := ConfirmDelete(store, Inventory, id, confirmed);
  }

  // ---------------------------------------------------------------------------

  /** The search keeps, in order, the items whose name or category contains
      the term in any case, whenever it does not throw. */
  lemma FilteredInventoryMeaning(items: seq<Doc>, searchTerm: string)
    requires FilteredInventory(items, searchTerm).Some?
    ensures IsSublist(FilteredInventory(items, searchTerm).value, items)
    ensures forall d :: d in FilteredInventory(items, searchTerm).value <==>
      d in items && (TextFieldContains(d, "name", Lower(searchTerm)) || TextFieldContains(d, "category", Lower(searchTerm)))
  {
    SearchListExact(items, InventoryFields, Lower(searchTerm));
    assert InventoryFields[0] == "name" && InventoryFields[1] == "category";
  }

  /** An item with a numeric quantity is low exactly when the quantity is
      at most its minimum, a minimum of 0 or none at all meaning 10. */
  lemma IsLowMeaning(item: Doc, q: int)
    requires Field(item, "quantity") == Some(Num(q))
    ensures Field(item, "minStock").None? || Field(item, "minStock") == Some(Num(0)) ==> (IsLow(item) <==> q <= 10)
    ensures forall m :: m != 0 && Field(item, "minStock") == Some(Num(m)) ==> (IsLow(item) <==> q <= m)
  {
  }

  /** An item without a quantity is never low. */
  lemma NoQuantityNeverLow(item: Doc)
    requires Field(item, "quantity").None?
    ensures !IsLow(item)
  {
  }

  /** The page's rule is not the store's `getLowStock`: 5 units against a
      minimum of 3 is low for the store's default threshold but not here,
      and 12 units against a minimum of 20 is low here but not there. */
  lemma PageRuleDiffersFromStore()
    ensures var d := map["quantity" := Num(5), "minStock" := Num(3)];
      LowStock(LowStockDefault)(d) && !IsLow(d)
    ensures var d := map["quantity" := Num(12), "minStock" := Num(20)];
      !LowStock(LowStockDefault)(d) && IsLow(d)
  {
  }

  /** The alert shows exactly when some item is low, and then shows how
      many are. */
  lemma LowStockAlertMeaning(items: seq<Doc>)
    ensures LowStockAlert(items).Some? <==> exists d :: d in items && IsLow(d)
    ensures LowStockAlert(items).Some? ==> LowStockAlert(items).value == Count(items, (item: Doc) => IsLow(item))
  {
    if exists d :: d in items && IsLow(d) {
      var d :| d in items && IsLow(d);
      assert d in LowStockItems(items);
    }
    if LowStockAlert(items).Some? {
      var d := LowStockItems(items)[0];
      assert d in LowStockItems(items);
    }
  }
}
