/** `globalSearch` (src/components/db/database.jsx): a case-insensitive
    substring search over a fixed set of text fields per collection. Each
    field is read as `doc.f?.toLowerCase().includes(term)`, so an absent or
    `null` field simply does not match, while a field holding a number,
    boolean, array or object makes `toLowerCase` a call of `undefined` and the
    whole search rejects with a TypeError. */
module Search {
  import opened Wrappers
  import opened Json
  import opened Text
  import opened Seqs
  import opened Documents

  /** The fields searched in each collection, in the order they are tried. */
  const JobFields := ["name", "address", "notes"]
  const LogFields := ["notes", "weather", "safetyObservations"]
  const TaskFields := ["title", "description"]
  const OrderFields := ["item", "notes"]
  const ToolFields := ["name", "serialNumber"]
  const InventoryFields := ["name", "category"]
  const CrewFields := ["name", "role", "phone"]

  /** `d[k]?.toLowerCase().includes(term)`; `None` when it throws. */
  function FieldMatch(d: Doc, k: string, term: string): (r: Option<bool>)
    ensures r == Some(true) <==> TextFieldContains(d, k, term)
    ensures r.None? <==> k in d && !d[k].Null? && !d[k].Str?
  {
    match Field(d, k)
    case None => Some(false)
    case Some(Null) => Some(false)
    case Some(Str(s)) => Some(Contains(Lower(s), term))
    case Some(_) => None
  }

  /** The field holds a string that, lower-cased, includes `term`. */
  predicate TextFieldContains(d: Doc, k: string, term: string) {
    k in d && d[k].Str? && Contains(Lower(d[k].s), term)
  }

  /** The `||` chain over `fields`, stopping at the first match. */
  function AnyFieldMatches(d: Doc, fields: seq<string>, term: string): Option<bool> {
    if fields == [] then Some(false)
    else match FieldMatch(d, fields[0], term)
      case None => None
      case Some(true) => Some(true)
      case Some(false) => AnyFieldMatches(d, fields[1..], term)
  }

  /** A document the filter keeps. */
  predicate Hit(d: Doc, fields: seq<string>, term: string) {
    AnyFieldMatches(d, fields, term) == Some(true)
  }

  /** `docs.filter(...)`; `None` when some document throws. */
  function SearchList(docs: seq<Doc>, fields: seq<string>, term: string): Option<seq<Doc>> {
    if docs == [] then Some([])
    else match AnyFieldMatches(docs[0], fields, term)
      case None => None
      case Some(b) =>
        match SearchList(docs[1..], fields, term)
        case None => None
        case Some(rest) => Some((if b then [docs[0]] else []) + rest)
  }

  datatype SearchResults = SearchResults(
    jobs: seq<Doc>, logs: seq<Doc>, tasks: seq<Doc>, orders: seq<Doc>,
    tools: seq<Doc>, inventory: seq<Doc>, crew: seq<Doc>)

  /** The collections `globalSearch` reads. */
  datatype Collections = Collections(
    jobs: Table, logs: Table, tasks: Table, orders: Table,
    tools: Table, inventory: Table, crew: Table)

  /** `globalSearch(searchTerm)`; `None` when it rejects. */
  function GlobalSearch(c: Collections, searchTerm: string): Option<SearchResults> {
    var term := Lower(searchTerm);
    var jobs := SearchList(GetAllDocuments(c.jobs), JobFields, term);
    var logs := SearchList(GetAllDocuments(c.logs), LogFields, term);
    var tasks := SearchList(GetAllDocuments(c.tasks), TaskFields, term);
    var orders := SearchList(GetAllDocuments(c.orders), OrderFields, term);
    var tools := SearchList(GetAllDocuments(c.tools), ToolFields, term);
    var inventory := SearchList(GetAllDocuments(c.inventory), InventoryFields, term);
    var crew := SearchList(GetAllDocuments(c.crew), CrewFields, term);
    if jobs.Some? && logs.Some? && tasks.Some? && orders.Some? && tools.Some? && inventory.Some? && crew.Some?
    then Some(SearchResults(jobs.value, logs.value, tasks.value, orders.value, tools.value, inventory.value, crew.value))
    else None
  }

  // ---------------------------------------------------------------------------

  /** When the `||` chain completes, it matches exactly when one of the
      fields is a string including the term. */
  lemma {:induction false} AnyFieldMatchesMeaning(d: Doc, fields: seq<string>, term: string)
    requires AnyFieldMatches(d, fields, term).Some?
    ensures Hit(d, fields, term) <==> exists i :: 0 <= i < |fields| && TextFieldContains(d, fields[i], term)
  {
    if fields != [] {
      if FieldMatch(d, fields[0], term) == Some(false) {
        AnyFieldMatchesMeaning(d, fields[1..], term);
        if exists i :: 0 <= i < |fields| && TextFieldContains(d, fields[i], term) {
          var i :| 0 <= i < |fields| && TextFieldContains(d, fields[i], term);
          assert i > 0;
          assert fields[1..][i - 1] == fields[i];
        }
        if Hit(d, fields, term) {
          var i :| 0 <= i < |fields[1..]| && TextFieldContains(d, fields[1..][i], term);
          assert fields[i + 1] == fields[1..][i];
        }
      } else {
        assert TextFieldContains(d, fields[0], term);
      }
    }
  }

  /** Field `i` is the first that is neither a miss nor a match: it throws. */
  predicate ThrowsAt(d: Doc, fields: seq<string>, term: string, i: int) {
    0 <= i < |fields| && FieldMatch(d, fields[i], term).None? &&
    forall j :: 0 <= j < i ==> FieldMatch(d, fields[j], term) == Some(false)
  }

  lemma ThrowsAtShift(d: Doc, fields: seq<string>, term: string, i: nat)
    requires fields != []
    ensures ThrowsAt(d, fields, term, i + 1) <==>
      FieldMatch(d, fields[0], term) == Some(false) && ThrowsAt(d, fields[1..], term, i)
  {
    var rest := fields[1..];
    if ThrowsAt(d, fields, term, i + 1) {
      assert FieldMatch(d, fields[0], term) == Some(false);
      forall j | 0 <= j < i
        ensures FieldMatch(d, rest[j], term) == Some(false)
      {
        assert rest[j] == fields[j + 1];
      }
      assert rest[i] == fields[i + 1];
    }
    if FieldMatch(d, fields[0], term) == Some(false) && ThrowsAt(d, rest, term, i) {
      forall j | 0 <= j < i + 1
        ensures FieldMatch(d, fields[j], term) == Some(false)
      {
        if j > 0 {
          assert fields[j] == rest[j - 1];
        }
      }
      assert fields[i + 1] == rest[i];
    }
  }

  /** The `||` chain throws exactly when, before any match, it reaches a
      field holding something that is neither a string nor `null`. */
  lemma {:induction false} AnyFieldMatchesThrows(d: Doc, fields: seq<string>, term: string)
    ensures AnyFieldMatches(d, fields, term).None? <==> exists i :: ThrowsAt(d, fields, term, i)
  {
    if fields != [] {
      AnyFieldMatchesThrows(d, fields[1..], term);
      var m := FieldMatch(d, fields[0], term);
      if m.None? {
        assert ThrowsAt(d, fields, term, 0);
      } else if exists i :: ThrowsAt(d, fields, term, i) {
        var i :| ThrowsAt(d, fields, term, i);
        assert i > 0;
        ThrowsAtShift(d, fields, term, i - 1);
        assert ThrowsAt(d, fields[1..], term, i - 1);
      } else if AnyFieldMatches(d, fields, term).None? {
        var i :| ThrowsAt(d, fields[1..], term, i);
        ThrowsAtShift(d, fields, term, i);
      }
    }
  }

  /** A list search either rejects, or returns exactly the filter of the
      list by `Hit`; it rejects exactly when some document throws. */
  lemma {:induction false} SearchListIsFilter(docs: seq<Doc>, fields: seq<string>, term: string)
    ensures SearchList(docs, fields, term).Some? <==>
      forall i :: 0 <= i < |docs| ==> AnyFieldMatches(docs[i], fields, term).Some?
    ensures SearchList(docs, fields, term).Some? ==>
      SearchList(docs, fields, term).value == Filter(docs, (d: Doc) => Hit(d, fields, term))
  {
    if docs != [] {
      SearchListIsFilter(docs[1..], fields, term);
      assert forall i :: 1 <= i < |docs| ==> docs[i] == docs[1..][i - 1];
    }
  }

  /** Every search result lies in its collection's listing, in listing
      order, and has a searched field that includes the lower-cased term;
      every listed document with such a field is a result. */
  lemma SearchListExact(docs: seq<Doc>, fields: seq<string>, term: string)
    requires SearchList(docs, fields, term).Some?
    ensures IsSublist(SearchList(docs, fields, term).value, docs)
    ensures forall d :: d in SearchList(docs, fields, term).value <==>
      d in docs && exists i :: 0 <= i < |fields| && TextFieldContains(d, fields[i], term)
  {
    SearchListIsFilter(docs, fields, term);
    FilterIsSublist(docs, (d: Doc) => Hit(d, fields, term));
    forall d | d in docs
      ensures Hit(d, fields, term) <==> exists i :: 0 <= i < |fields| && TextFieldContains(d, fields[i], term)
    {
      var k :| 0 <= k < |docs| && docs[k] == d;
      AnyFieldMatchesMeaning(d, fields, term);
    }
  }

  /** The search does not depend on the case of the term's ASCII letters. */
  lemma SearchIgnoresTermCase(c: Collections, searchTerm: string)
    ensures GlobalSearch(c, searchTerm) == GlobalSearch(c, Lower(searchTerm))
  {
    LowerIdempotent(searchTerm);
  }

  /** A job whose first searched field holds a number makes the search
      reject, whatever the term. */
  lemma NumericJobNameRejects(c: Collections, searchTerm: string, id: string)
    requires id in c.jobs && !StartsWith(id, "_")
    requires "name" in c.jobs[id] && c.jobs[id]["name"].Num?
    ensures GlobalSearch(c, searchTerm).None?
  {
    var docs := GetAllDocuments(c.jobs);
    var ids := VisibleOrder(c.jobs);
    assert id in ids;
    var k :| 0 <= k < |ids| && ids[k] == id;
    assert AnyFieldMatches(docs[k], JobFields, Lower(searchTerm)).None?;
    SearchListIsFilter(docs, JobFields, Lower(searchTerm));
  }

  /** With an empty term every document having a string in a searched field
      is found. */
  lemma EmptyTermFindsTextual(docs: seq<Doc>, fields: seq<string>, d: Doc, i: int)
    requires SearchList(docs, fields, "").Some?
    requires d in docs && 0 <= i < |fields| && fields[i] in d && d[fields[i]].Str?
    ensures d in SearchList(docs, fields, "").value
  {
    ContainsEmpty(Lower(d[fields[i]].s));
    assert TextFieldContains(d, fields[i], "");
    SearchListExact(docs, fields, "");
  }
}
