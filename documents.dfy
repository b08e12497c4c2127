/** The generic document operations of src/components/db/database.jsx on one
    collection, as pure functions of the collection's contents: a table
    from document id to document. The store's write rules (a new document
    needs an unused, non-empty string id; a revision must keep its id) are
    stated here once and used by `create`, `update` and the settings upsert. */
module Documents {
  import opened Wrappers
  import opened Json
  import opened Text
  import opened Seqs
  import opened Ordering
  import opened Validation

  /** The nine generic collections. */
  datatype Kind = Jobs | Logs | Tasks | Orders | Tools | Inventory | Crew | Checklists | TimeEntries

  datatype StoreError =
    | ValidationFailed(message: string)  // thrown by `createDocument`
    | NotFound(id: string)               // `db.get` of an absent id
    | Conflict(id: string)               // `db.put` rejected: id taken or revision mismatch
    | BadId                              // `db.put` of a document without a usable `_id`

  type Table = map<string, Doc>

  /** The result of a call together with the collection after it. */
  datatype Step<+R> = Step(result: Result<R, StoreError>, table: Table)

  /** Every document is stored under its own `_id`. */
  predicate WellKeyed(t: Table) {
    forall k :: k in t ==> Field(t[k], "_id") == Some(Str(k))
  }

  /** The required fields each collection's `create` passes to `validateRequired`. */
  function RequiredFields(kind: Kind): (r: seq<string>)
    ensures 1 <= |r| <= 3
  {
    match kind
    case Jobs => ["name", "address"]
    case Logs => ["jobId", "date"]
    case Tasks => ["title", "jobId"]
    case Orders => ["item", "jobId"]
    case Tools => ["name"]
    case Inventory => ["name", "quantity"]
    case Crew => ["name"]
    case Checklists => ["name"]
    case TimeEntries => ["jobId", "date", "hours"]
  }

  /** `db.put(doc)` for a document that carries no revision. */
  function PutNew(t: Table, doc: Doc): (s: Step<Doc>)
    ensures s.result.Success? <==>
      exists id :: Field(doc, "_id") == Some(Str(id)) && id != "" && id !in t
    ensures s.result.Success? ==> s.result.value == doc && s.table == t[doc["_id"].s := doc]
    ensures s.result.Failure? ==> s.table == t
  {
    match Field(doc, "_id")
    case Some(Str(id)) =>
      if id == "" then Step(Failure(BadId), t)
      else if id in t then Step(Failure(Conflict(id)), t)
      else Step(Success(doc), t[id := doc])
    case _ => Step(Failure(BadId), t)
  }

  /** `db.put(doc)` for a document read from `t[id]`, carrying its revision:
      it is accepted only as a new revision of that same document. */
  function PutRevision(t: Table, id: string, doc: Doc): (s: Step<Doc>)
    requires id in t
    ensures s.result.Success? <==> Field(doc, "_id") == Some(Str(id))
    ensures s.result.Success? ==> s.result.value == doc && s.table == t[id := doc]
    ensures s.result.Failure? ==> s.table == t
  {
    match Field(doc, "_id")
    case Some(Str(other)) =>
      if other == id then Step(Success(doc), t[id := doc])
      else if other == "" then Step(Failure(BadId), t)
      else Step(Failure(Conflict(other)), t)
    case _ => Step(Failure(BadId), t)
  }

  /** The document `createDocument` writes: a generated id that `data` may
      override, then `data`, then both timestamps. */
  function NewDoc(data: Doc, freshId: string, now: string): (d: Doc)
    ensures Field(d, "createdAt") == Some(Str(now)) && Field(d, "updatedAt") == Some(Str(now))
    ensures Field(d, "_id") == Some(if "_id" in data then data["_id"] else Str(freshId))
    ensures forall k :: k in data && k != "createdAt" && k != "updatedAt" ==> k in d && d[k] == data[k]
    ensures d.Keys == data.Keys + {"_id", "createdAt", "updatedAt"}
  {
    map["_id" := Str(freshId)] + data + map["createdAt" := Str(now), "updatedAt" := Str(now)]
  }

  /** `createDocument(db, data, requiredFields)`; `freshId` is the value
      `uuidv4()` returns and `now` the current time as an ISO string. */
  function CreateDocument(t: Table, data: Doc, required: seq<string>, freshId: string, now: string): (s: Step<Doc>)
    ensures Violations(data, required) != [] <==> s.result == Failure(ValidationFailed(ErrorText(Violations(data, required))))
    ensures s.result.Failure? ==> s.table == t
    ensures s.result.Success? ==> s.result.value == NewDoc(data, freshId, now)
  {
    var errs := Violations(data, required);
    if errs != [] then Step(Failure(ValidationFailed(ErrorText(errs))), t)
    else PutNew(t, NewDoc(data, freshId, now))
  }

  /** The document `updateDocument` writes: the stored one, then `patch`,
      then a fresh `updatedAt`. */
  function Merged(existing: Doc, patch: Doc, now: string): (d: Doc)
    ensures Field(d, "updatedAt") == Some(Str(now))
    ensures forall k :: k in patch && k != "updatedAt" ==> k in d && d[k] == patch[k]
    ensures forall k :: k in existing && k !in patch && k != "updatedAt" ==> k in d && d[k] == existing[k]
    ensures d.Keys == existing.Keys + patch.Keys + {"updatedAt"}
  {
    existing + patch + map["updatedAt" := Str(now)]
  }

  /** `updateDocument(db, id, data)`. */
  function UpdateDocument(t: Table, id: string, patch: Doc, now: string): (s: Step<Doc>)
    ensures id !in t <==> s.result == Failure(NotFound(id))
    ensures s.result.Failure? ==> s.table == t
    ensures s.result.Success? ==> id in t && s.result.value == Merged(t[id], patch, now) && s.table == t[id := s.result.value]
  {
    if id !in t then Step(Failure(NotFound(id)), t)
    else PutRevision(t, id, Merged(t[id], patch, now))
  }

  /** `deleteDocument(db, id)`; success reports the removed id. */
  function DeleteDocument(t: Table, id: string): (s: Step<string>)
    ensures id in t <==> s.result.Success?
    ensures s.result.Success? ==> s.result.value == id && s.table == t - {id}
    ensures s.result.Failure? ==> s.result.error == NotFound(id) && s.table == t
  {
    if id in t then Step(Success(id), t - {id}) else Step(Failure(NotFound(id)), t)
  }

  /** `getDocument(db, id)`. */
  function GetDocument(t: Table, id: string): (r: Result<Doc, StoreError>)
    ensures r.Success? <==> id in t
    ensures r.Success? ==> r.value == t[id]
    ensures r.Failure? ==> r.error == NotFound(id)
  {
    if id in t then Success(t[id]) else Failure(NotFound(id))
  }

  /** Ids `getAllDocuments` returns: those not starting with `_` (design documents). */
  function VisibleIds(t: Table): (ids: set<string>)
    ensures forall k :: k in ids <==> k in t && !StartsWith(k, "_")
  {
    set k | k in t && !StartsWith(k, "_")
  }

  /** The order of `allDocs`: ascending id. */
  function VisibleOrder(t: Table): (ids: seq<string>)
    ensures |ids| == |VisibleIds(t)|
    ensures forall k :: k in ids <==> k in t && !StartsWith(k, "_")
    ensures Ascending(ids)
  {
    SortedKeys(VisibleIds(t))
  }

  /** `getAllDocuments(db)`. */
  function GetAllDocuments(t: Table): (r: seq<Doc>)
    ensures |r| == |VisibleOrder(t)|
    ensures forall i :: 0 <= i < |r| ==> VisibleOrder(t)[i] in t && r[i] == t[VisibleOrder(t)[i]]
  {
    var ids := VisibleOrder(t);
    seq(|ids|, i requires 0 <= i < |ids| => t[ids[i]])
  }

  /** `queryDocuments(db, filterFn)`. */
  function QueryDocuments(t: Table, p: Doc -> bool): seq<Doc> {
    Filter(GetAllDocuments(t), p)
  }

  /** `doc => doc[k] === v`: `getByJob`, `getByDate`, `getByStatus`,
      `getByPriority`, `getPending` and the tools' `getByJob` on `assignedJobId`. */
  function FieldEquals(k: string, v: Option<Value>): Doc -> bool {
    (d: Doc) => StrictEq(Field(d, k), v)
  }

  /** Default threshold of `InventoryAPI.getLowStock`. */
  const LowStockDefault := 10

  /** `doc => doc.quantity <= threshold`. */
  function LowStock(threshold: int): Doc -> bool {
    (d: Doc) => LessEq(Field(d, "quantity"), threshold)
  }

  /** `doc => doc.date >= startDate && doc.date <= endDate` for date strings. */
  function InDateRange(startDate: string, endDate: string): Doc -> bool {
    (d: Doc) => Field(d, "date").Some? && d["date"].Str? && StrLeq(startDate, d["date"].s) && StrLeq(d["date"].s, endDate)
  }

  // ---------------------------------------------------------------------------
  // Properties of the generic operations

  /** A document `getAllDocuments` returns is a stored, visible document,
      and every stored visible document is returned. */
  lemma GetAllComplete(t: Table, d: Doc)
    requires WellKeyed(t)
    ensures d in GetAllDocuments(t) <==>
      (Field(d, "_id").Some? && d["_id"].Str? && d["_id"].s in VisibleIds(t) && t[d["_id"].s] == d)
  {
    var r := GetAllDocuments(t);
    var ids := VisibleOrder(t);
    if d in r {
      var i :| 0 <= i < |r| && r[i] == d;
      assert ids[i] in ids;
    }
    if Field(d, "_id").Some? && d["_id"].Str? && d["_id"].s in VisibleIds(t) && t[d["_id"].s] == d {
      var k := d["_id"].s;
      assert k in ids;
      var i :| 0 <= i < |ids| && ids[i] == k;
      assert r[i] == d;
    }
  }

  /** `getAllDocuments` lists documents in ascending id order, each once. */
  lemma GetAllOrdered(t: Table)
    requires WellKeyed(t)
    ensures forall i, j :: 0 <= i < j < |GetAllDocuments(t)| ==>
      GetAllDocuments(t)[i]["_id"].s != GetAllDocuments(t)[j]["_id"].s &&
      StrLeq(GetAllDocuments(t)[i]["_id"].s, GetAllDocuments(t)[j]["_id"].s)
  {
    var r: seq<Doc> := GetAllDocuments(t);
    var ids := VisibleOrder(t);
    assert forall i :: 0 <= i < |r| ==> r[i]["_id"] == Str(ids[i]);
  }

  /** A query returns exactly the listed documents its predicate accepts, in the same order. */
  lemma QueryIsFilteredListing(t: Table, p: Doc -> bool)
    ensures forall d :: d in QueryDocuments(t, p) <==> d in GetAllDocuments(t) && p(d)
    ensures IsSublist(QueryDocuments(t, p), GetAllDocuments(t))
  {
    FilterIsSublist(GetAllDocuments(t), p);
  }

  /** Every write keeps documents stored under their own ids. */
  lemma CreatePreservesKeying(t: Table, data: Doc, required: seq<string>, freshId: string, now: string)
    requires WellKeyed(t)
    ensures WellKeyed(CreateDocument(t, data, required, freshId, now).table)
  {
  }

  lemma UpdatePreservesKeying(t: Table, id: string, patch: Doc, now: string)
    requires WellKeyed(t)
    ensures WellKeyed(UpdateDocument(t, id, patch, now).table)
  {
  }

  lemma DeletePreservesKeying(t: Table, id: string)
    requires WellKeyed(t)
    ensures WellKeyed(DeleteDocument(t, id).table)
  {
  }

  /** A successful create stores the new document under its id and leaves
      every other document alone; `get` then returns it. */
  lemma CreateThenGet(t: Table, data: Doc, required: seq<string>, freshId: string, now: string)
    requires CreateDocument(t, data, required, freshId, now).result.Success?
    ensures var s := CreateDocument(t, data, required, freshId, now);
      var id := s.result.value["_id"].s;
      id !in t && GetDocument(s.table, id) == Success(s.result.value) &&
      s.table.Keys == t.Keys + {id} &&
      forall k :: k in t ==> s.table[k] == t[k]
  {
  }

  /** When the data passes validation and names no id, creating with an
      unused generated id always succeeds. */
  lemma CreateSucceedsWithFreshId(t: Table, data: Doc, required: seq<string>, freshId: string, now: string)
    requires Violations(data, required) == []
    requires "_id" !in data && freshId != "" && freshId !in t
    ensures CreateDocument(t, data, required, freshId, now).result.Success?
  {
    assert NewDoc(data, freshId, now)["_id"] == Str(freshId);
  }

  /** A create whose data repeats a stored id is refused and changes nothing. */
  lemma CreateWithTakenIdConflicts(t: Table, data: Doc, required: seq<string>, freshId: string, now: string)
    requires Violations(data, required) == []
    requires "_id" in data && data["_id"].Str? && data["_id"].s != "" && data["_id"].s in t
    ensures CreateDocument(t, data, required, freshId, now) == Step(Failure(Conflict(data["_id"].s)), t)
  {
    assert Field(NewDoc(data, freshId, now), "_id") == Some(data["_id"]);
  }

  /** A visible create adds exactly one document to the listing. */
  lemma CreateGrowsListing(t: Table, data: Doc, required: seq<string>, freshId: string, now: string)
    requires CreateDocument(t, data, required, freshId, now).result.Success?
    requires !StartsWith(CreateDocument(t, data, required, freshId, now).result.value["_id"].s, "_")
    ensures |GetAllDocuments(CreateDocument(t, data, required, freshId, now).table)| == |GetAllDocuments(t)| + 1
  {
    var s := CreateDocument(t, data, required, freshId, now);
    var id := s.result.value["_id"].s;
    assert VisibleIds(s.table) == VisibleIds(t) + {id};
  }

  /** An update keeps the document's id and creation time unless the patch
      sets them, takes every patched field, and touches no other document. */
  lemma UpdateThenGet(t: Table, id: string, patch: Doc, now: string)
    requires id in t && WellKeyed(t)
    requires "_id" !in patch
    ensures var s := UpdateDocument(t, id, patch, now);
      s.result.Success? &&
      GetDocument(s.table, id) == Success(Merged(t[id], patch, now)) &&
      s.table.Keys == t.Keys &&
      (forall k :: k in t && k != id ==> s.table[k] == t[k]) &&
      ("createdAt" in t[id] && "createdAt" !in patch ==> s.table[id]["createdAt"] == t[id]["createdAt"])
  {
  }

  /** A patch that renames the document is refused. */
  lemma UpdateCannotRename(t: Table, id: string, patch: Doc, now: string, other: string)
    requires id in t
    requires "_id" in patch && patch["_id"] == Str(other) && other != id && other != ""
    ensures UpdateDocument(t, id, patch, now) == Step(Failure(Conflict(other)), t)
  {
  }

  /** Deleting removes the document: `get` fails afterwards and the listing shrinks by one. */
  lemma DeleteThenGet(t: Table, id: string)
    requires id in t
    ensures GetDocument(DeleteDocument(t, id).table, id) == Failure(NotFound(id))
    ensures !StartsWith(id, "_") ==> |GetAllDocuments(DeleteDocument(t, id).table)| == |GetAllDocuments(t)| - 1
  {
    assert !StartsWith(id, "_") ==> VisibleIds(t) == VisibleIds(t - {id}) + {id};
  }

  /** The low-stock query misses documents with no quantity and those whose
      quantity is a string, and counts a `null` quantity as zero. */
  lemma LowStockEdges(threshold: int)
    ensures !LowStock(threshold)(map[])
    ensures !LowStock(threshold)(map["quantity" := Str("3")])
    ensures LowStock(threshold)(map["quantity" := Null]) <==> 0 <= threshold
  {
  }

  // ---------------------------------------------------------------------------
  // Settings: one document under a fixed id

  const SettingsId := "app_settings"

  /** What `SettingsAPI.get` returns when nothing has been stored. */
  function DefaultSettings(): (d: Doc)
    ensures Field(d, "_id") == Some(Str(SettingsId))
    ensures Field(d, "companyName") == Some(Str("SiteMaster Diary"))
    ensures !FieldTruthy(d, "darkMode") && !FieldTruthy(d, "companyLogo") && !FieldTruthy(d, "panoramicBackground")
  {
    map["_id" := Str(SettingsId), "darkMode" := Bool(false), "companyLogo" := Null,
        "companyName" := Str("SiteMaster Diary"), "panoramicBackground" := Null]
  }

  /** `SettingsAPI.get()`: the stored document or the defaults; nothing is written. */
  function SettingsGet(t: Table): (d: Doc)
    ensures SettingsId in t ==> d == t[SettingsId]
    ensures SettingsId !in t ==> d == DefaultSettings()
  {
    if SettingsId in t then t[SettingsId] else DefaultSettings()
  }

  /** The document the catch branch of `SettingsAPI.update` writes. */
  function FreshSettings(data: Doc, now: string): Doc {
    map["_id" := Str(SettingsId)] + data + map["createdAt" := Str(now), "updatedAt" := Str(now)]
  }

  /** `SettingsAPI.update(data)`: merge into the stored document; if that
      read or write fails, write a new document from `data` alone. */
  function SettingsUpdate(t: Table, data: Doc, now: string): (s: Step<Doc>)
    ensures SettingsId in t && Field(t[SettingsId], "_id") == Some(Str(SettingsId)) &&
            Field(data, "_id") in {None, Some(Str(SettingsId))} ==>
      s == Step(Success(Merged(t[SettingsId], data, now)), t[SettingsId := Merged(t[SettingsId], data, now)])
    ensures SettingsId !in t ==> s == PutNew(t, FreshSettings(data, now))
  {
    var first := if SettingsId in t then PutRevision(t, SettingsId, Merged(t[SettingsId], data, now))
                 else Step(Failure(NotFound(SettingsId)), t);
    if first.result.Success? then first else PutNew(t, FreshSettings(data, now))
  }

  lemma SettingsUpdatePreservesKeying(t: Table, data: Doc, now: string)
    requires WellKeyed(t)
    ensures WellKeyed(SettingsUpdate(t, data, now).table)
  {
  }

  /** An update that names no id always succeeds and `get` then shows every
      updated field and the new time. */
  lemma SettingsUpdateThenGet(t: Table, data: Doc, now: string)
    requires WellKeyed(t) && "_id" !in data
    ensures var s := SettingsUpdate(t, data, now);
      s.result.Success? &&
      SettingsGet(s.table) == s.result.value &&
      SettingsGet(s.table)["updatedAt"] == Str(now) &&
      forall k :: k in data && k != "updatedAt" && k != "createdAt" ==> SettingsGet(s.table)[k] == data[k]
  {
    if SettingsId !in t {
      assert FreshSettings(data, now)["_id"] == Str(SettingsId);
    }
  }

  /** Reading is not creating: `get` on an empty collection returns the
      defaults, but the first `update` stores `data` without them, so a
      later `get` no longer shows the default company name unless `data` sets it. */
  lemma FirstUpdateDropsDefaults(now: string)
    ensures SettingsGet(map[]) == DefaultSettings()
    ensures var s := SettingsUpdate(map[], map["darkMode" := Bool(true)], now);
      s.result.Success? && "companyName" !in SettingsGet(s.table)
  {
    var d := FreshSettings(map["darkMode" := Bool(true)], now);
    assert d["_id"] == Str(SettingsId);
    assert d.Keys == {"_id", "darkMode", "createdAt", "updatedAt"};
  }
}
