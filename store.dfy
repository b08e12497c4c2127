/** The local store of src/components/db/database.jsx: one collection per
    entity kind plus the settings collection, each a table from id to
    document that the API's writes replace. */
module Store {
  import opened Wrappers
  import opened Json
  import opened Seqs
  import opened Documents
  import opened Validation
  import Search

  /** The named convenience queries of the collection APIs. */
  datatype NamedQuery =
    | LogsByJob(jobId: Option<Value>)
    | LogsByDate(date: Option<Value>)
    | TasksByJob(jobId: Option<Value>)
    | TasksByStatus(status: Option<Value>)
    | TasksByPriority(priority: Option<Value>)
    | OrdersByJob(jobId: Option<Value>)
    | OrdersPending
    | ToolsByJob(jobId: Option<Value>)
    | InventoryLowStock(threshold: int)
    | TimeEntriesByJob(jobId: Option<Value>)
    | TimeEntriesByDateRange(startDate: string, endDate: string)

  /** The collection a named query reads. */
  function QueryKind(q: NamedQuery): Kind {
    match q
    case LogsByJob(_) => Logs
    case LogsByDate(_) => Logs
    case TasksByJob(_) => Tasks
    case TasksByStatus(_) => Tasks
    case TasksByPriority(_) => Tasks
    case OrdersByJob(_) => Orders
    case OrdersPending => Orders
    case ToolsByJob(_) => Tools
    case InventoryLowStock(_) => Inventory
    case TimeEntriesByJob(_) => TimeEntries
    case TimeEntriesByDateRange(_, _) => TimeEntries
  }

  /** The predicate a named query passes to `queryDocuments`. */
  function QueryPredicate(q: NamedQuery): Doc -> bool {
    match q
    case LogsByJob(v) => FieldEquals("jobId", v)
    case LogsByDate(v) => FieldEquals("date", v)
    case TasksByJob(v) => FieldEquals("jobId", v)
    case TasksByStatus(v) => FieldEquals("status", v)
    case TasksByPriority(v) => FieldEquals("priority", v)
    case OrdersByJob(v) => FieldEquals("jobId", v)
    case OrdersPending => FieldEquals("status", Some(Str("pending")))
    case ToolsByJob(v) => FieldEquals("assignedJobId", v)
    case InventoryLowStock(threshold) => LowStock(threshold)
    case TimeEntriesByJob(v) => FieldEquals("jobId", v)
    case TimeEntriesByDateRange(s, e) => InDateRange(s, e)
  }

  class EntityStore {
    var jobs: Table
    var logs: Table
    var tasks: Table
    var orders: Table
    var tools: Table
    var inventory: Table
    var crew: Table
    var checklists: Table
    var timeEntries: Table
    var settings: Table

    function Table(kind: Kind): Table
      reads this`jobs, this`logs, this`tasks, this`orders, this`tools
      reads this`inventory, this`crew, this`checklists, this`timeEntries
    {
      match kind
      case Jobs => jobs
      case Logs => logs
      case Tasks => tasks
      case Orders => orders
      case Tools => tools
      case Inventory => inventory
      case Crew => crew
      case Checklists => checklists
      case TimeEntries => timeEntries
    }

    /** Every document of every collection is stored under its own id. */
    ghost predicate Valid()
      reads this
    {
      (forall kind: Kind :: WellKeyed(Table(kind))) && WellKeyed(settings)
    }

    /** Fresh, empty collections. */
    constructor()
      ensures Valid()
      ensures forall kind: Kind :: Table(kind) == map[]
      ensures settings == map[]
    {
      jobs, logs, tasks, orders, tools := map[], map[], map[], map[], map[];
      inventory, crew, checklists, timeEntries, settings := map[], map[], map[], map[], map[];
    }

    /** Replace one collection's contents. */
    method SetTable(kind: Kind, t: Table)
      modifies this
      ensures Table(kind) == t
      ensures forall other: Kind :: other != kind ==> Table(other) == old(Table(other))
      ensures settings == old(settings)
    {
      match kind
      case Jobs => jobs := t;
      case Logs => logs := t;
      case Tasks => tasks := t;
      case Orders => orders := t;
      case Tools => tools := t;
      case Inventory => inventory := t;
      case Crew => crew := t;
      case Checklists => checklists := t;
      case TimeEntries => timeEntries := t;
    }

    /** `XAPI.create(data)`: validate the kind's required fields, then store. */
    method Create(kind: Kind, data: Doc, freshId: string, now: string) returns (r: Result<Doc, StoreError>)
      requires Valid()
      modifies this
      ensures Valid()
      ensures var s := CreateDocument(old(Table(kind)), data, RequiredFields(kind), freshId, now);
        r == s.result && Table(kind) == s.table
      ensures forall other: Kind :: other != kind ==> Table(other) == old(Table(other))
      ensures settings == old(settings)
    {
      var s := CreateDocument(Table(kind), data, RequiredFields(kind), freshId, now);
      CreatePreservesKeying(Table(kind), data, RequiredFields(kind), freshId, now);
      SetTable(kind, s.table);
      r := s.result;
    }

    /** `XAPI.update(id, data)`: merge into the stored document. */
    method Update(kind: Kind, id: string, patch: Doc, now: string) returns (r: Result<Doc, StoreError>)
      requires Valid()
      modifies this
      ensures Valid()
      ensures var s := UpdateDocument(old(Table(kind)), id, patch, now);
        r == s.result && Table(kind) == s.table
      ensures forall other: Kind :: other != kind ==> Table(other) == old(Table(other))
      ensures settings == old(settings)
    {
      var s := UpdateDocument(Table(kind), id, patch, now);
      UpdatePreservesKeying(Table(kind), id, patch, now);
      SetTable(kind, s.table);
      r := s.result;
    }

    /** `XAPI.delete(id)`: remove one document; nothing that refers to it
        in another collection is touched. */
    method Delete(kind: Kind, id: string) returns (r: Result<string, StoreError>)
      requires Valid()
      modifies this
      ensures Valid()
      ensures var s := DeleteDocument(old(Table(kind)), id);
        r == s.result && Table(kind) == s.table
      ensures forall other: Kind :: other != kind ==> Table(other) == old(Table(other))
      ensures settings == old(settings)
    {
      var s := DeleteDocument(Table(kind), id);
      DeletePreservesKeying(Table(kind), id);
      SetTable(kind, s.table);
      r := s.result;
    }

    /** `XAPI.get(id)`. */
    function Get(kind: Kind, id: string): (r: Result<Doc, StoreError>)
      reads this
      ensures r.Success? <==> id in Table(kind)
      ensures r.Success? ==> r.value == Table(kind)[id]
    {
      GetDocument(Table(kind), id)
    }

    /** `XAPI.getAll()`. */
    function GetAll(kind: Kind): seq<Doc>
      reads this
    {
      GetAllDocuments(Table(kind))
    }

    /** `XAPI.query(filterFn)`. */
    function Query(kind: Kind, p: Doc -> bool): seq<Doc>
      reads this
    {
      QueryDocuments(Table(kind), p)
    }

    /** The named queries: exactly the listed documents of the query's
        collection that satisfy its predicate, in listing order. */
    function Run(q: NamedQuery): (r: seq<Doc>)
      reads this
      ensures IsSublist(r, GetAll(QueryKind(q)))
      ensures forall d :: d in r <==> d in GetAll(QueryKind(q)) && QueryPredicate(q)(d)
    {
      QueryIsFilteredListing(Table(QueryKind(q)), QueryPredicate(q));
      Query(QueryKind(q), QueryPredicate(q))
    }

    /** `SettingsAPI.get()`. */
    function GetSettings(): Doc
      reads this
    {
      SettingsGet(settings)
    }

    /** `SettingsAPI.update(data)`. */
    method UpdateSettings(data: Doc, now: string) returns (r: Result<Doc, StoreError>)
      requires Valid()
      modifies this
      ensures Valid()
      ensures var s := SettingsUpdate(old(settings), data, now);
        r == s.result && settings == s.table
      ensures forall kind: Kind :: Table(kind) == old(Table(kind))
    {
      var s := SettingsUpdate(settings, data, now);
      SettingsUpdatePreservesKeying(settings, data, now);
      settings := s.table;
      r := s.result;
    }

    /** `globalSearch(searchTerm)`; `None` when it rejects. */
    function GlobalSearch(searchTerm: string): Option<Search.SearchResults>
      reads this
    {
      Search.GlobalSearch(Search.Collections(jobs, logs, tasks, orders, tools, inventory, crew), searchTerm)
    }
  }

  /** Pending orders all have status "pending". */
  lemma PendingOrdersArePending(t: Table)
    ensures forall d :: d in QueryDocuments(t, QueryPredicate(OrdersPending)) ==>
      "status" in d && d["status"] == Str("pending")
  {
    var p := QueryPredicate(OrdersPending);
    QueryIsFilteredListing(t, p);
    forall d | d in QueryDocuments(t, p)
      ensures "status" in d && d["status"] == Str("pending")
    {
      assert p(d);
    }
  }

  /** Low-stock items all have a numeric (or null) quantity at or below the threshold. */
  lemma LowStockIsAtOrBelow(t: Table, threshold: int)
    ensures forall d :: d in QueryDocuments(t, QueryPredicate(InventoryLowStock(threshold))) ==>
      NumberOf(Field(d, "quantity")).Some? && NumberOf(Field(d, "quantity")).value <= threshold
  {
    var p := QueryPredicate(InventoryLowStock(threshold));
    QueryIsFilteredListing(t, p);
    forall d | d in QueryDocuments(t, p)
      ensures NumberOf(Field(d, "quantity")).Some? && NumberOf(Field(d, "quantity")).value <= threshold
    {
      assert p(d);
    }
  }
}
