/** src/components/search/GlobalSearch.jsx: the search dialog. It runs the
    store's `globalSearch` for terms of two characters or more, totals the
    hits, titles and subtitles each hit by category, and resets itself when
    a hit is chosen. The debounce delay is not modelled. */
module GlobalSearchView {
  import opened Wrappers
  import opened Json
  import opened Text
  import opened Search

  /** The dialog's state: the typed query and `results` (`None` is `null`). */
  datatype Dialog = Dialog(query: string, results: Option<SearchResults>)

  /** `performSearch(searchTerm)`: the new `results` and whether
      `globalSearch` was called. A rejected search leaves the results as
      they were. */
  function PerformSearch(results: Option<SearchResults>, c: Collections, searchTerm: string)
    : (r: (Option<SearchResults>, bool))
  {
    if |searchTerm| < 2 then (None, false)
    else match GlobalSearch(c, searchTerm)
      case Some(found) => (Some(found), true)
      case None => (results, true)
  }

  /** `getTotalResults()`. */
  function TotalResults(results: Option<SearchResults>): nat {
    match results
    case None => 0
    case Some(r) => |r.jobs| + |r.logs| + |r.tasks| + |r.orders| + |r.tools| + |r.inventory| + |r.crew|
  }

  /** `getItemTitle(category, item)`; `None` is `undefined`. */
  function ItemTitle(category: string, item: Doc): Option<Value> {
    if category == "jobs" || category == "tools" || category == "inventory" || category == "crew" then Field(item, "name")
    else if category == "logs" then Some(Str("Log: " + ToText(Field(item, "date"))))
    else if category == "tasks" then Field(item, "title")
    else if category == "orders" then Field(item, "item")
    else Some(Str("Unknown"))
  }

  /** What a subtitle expression yields: nothing (`undefined`), a value, or
      a TypeError from calling `substring` on something that is not text. */
  datatype Subtitle = Absent | Shown(v: Value) | Throws

  /** `v?.substring(0, 50)`. */
  function Excerpt(v: Option<Value>): Subtitle {
    match v
    case None => Absent
    case Some(Null) => Absent
    case Some(Str(s)) => Shown(Str(Prefix(s, 50)))
    case Some(_) => Throws
  }

  /** A field's value shown as it is. */
  function AsShown(v: Option<Value>): Subtitle {
    if v.Some? then Shown(v.value) else Absent
  }

  /** `getItemSubtitle(category, item)`. */
  function ItemSubtitle(category: string, item: Doc): Subtitle {
    if category == "jobs" then AsShown(Field(item, "address"))
    else if category == "logs" then Excerpt(Field(item, "notes"))
    else if category == "tasks" then Excerpt(Field(item, "description"))
    else if category == "orders" then
      Shown(Str("Qty: " + ToText(Field(item, "quantity")) + " - " + ToText(Field(item, "status"))))
    else if category == "tools" then
      Shown(Str(ToText(Field(item, "category")) + " - " + ToText(Field(item, "condition"))))
    else if category == "inventory" then Shown(Str("Qty: " + ToText(Field(item, "quantity"))))
    else if category == "crew" then AsShown(Field(item, "role"))
    else Shown(Str(""))
  }

  /** The calls a result click makes, in order. */
  datatype Call = ResultClick(category: string, item: Doc) | Close

  /** `handleResultClick(category, item)`: the calls made and the state
      after the reset. */
  function HandleResultClick(d: Dialog, category: string, item: Doc): (r: (seq<Call>, Dialog)) {
    ([ResultClick(category, item), Close], Dialog("", None))
  }

  // ---------------------------------------------------------------------------

  /** A term shorter than two characters clears the results without
      searching; a longer one always searches, and a search that completes
      shows exactly what `globalSearch` found. */
  lemma PerformSearchMeaning(results: Option<SearchResults>, c: Collections, searchTerm: string)
    ensures |searchTerm| < 2 ==> PerformSearch(results, c, searchTerm) == (None, false)
    ensures |searchTerm| >= 2 ==> PerformSearch(results, c, searchTerm).1
    ensures |searchTerm| >= 2 && GlobalSearch(c, searchTerm).Some? ==>
      PerformSearch(results, c, searchTerm).0 == GlobalSearch(c, searchTerm)
    ensures PerformSearch(results, c, searchTerm).0.Some? ==>
      PerformSearch(results, c, searchTerm).0 == results || PerformSearch(results, c, searchTerm).0 == GlobalSearch(c, searchTerm)
  {
  }

  /** No results count as zero hits, and a result set has none exactly when
      every category is empty. */
  lemma TotalResultsMeaning(results: Option<SearchResults>)
    ensures results.None? ==> TotalResults(results) == 0
    ensures results.Some? ==> var r := results.value;
      (TotalResults(results) == 0 <==>
        r.jobs == [] && r.logs == [] && r.tasks == [] && r.orders == [] && r.tools == [] && r.inventory == [] && r.crew == [])
    ensures results.Some? ==> |results.value.jobs| <= TotalResults(results) && |results.value.crew| <= TotalResults(results)
  {
  }

  /** With the store's search, the total never exceeds the number of
      documents in the seven collections. */
  lemma TotalBoundedByCollections(c: Collections, searchTerm: string)
    requires GlobalSearch(c, searchTerm).Some?
    ensures var r := GlobalSearch(c, searchTerm).value;
      |r.jobs| <= |c.jobs| && |r.crew| <= |c.crew| &&
      TotalResults(Some(r)) <= |c.jobs| + |c.logs| + |c.tasks| + |c.orders| + |c.tools| + |c.inventory| + |c.crew|
  {
    var term := Lower(searchTerm);
    SearchedAtMost(c.jobs, JobFields, term);
    SearchedAtMost(c.logs, LogFields, term);
    SearchedAtMost(c.tasks, TaskFields, term);
    SearchedAtMost(c.orders, OrderFields, term);
    SearchedAtMost(c.tools, ToolFields, term);
    SearchedAtMost(c.inventory, InventoryFields, term);
    SearchedAtMost(c.crew, CrewFields, term);
  }

  lemma SearchedAtMost(t: Documents.Table, fields: seq<string>, term: string)
    requires SearchList(Documents.GetAllDocuments(t), fields, term).Some?
    ensures |SearchList(Documents.GetAllDocuments(t), fields, term).value| <= |t|
  {
    SearchListIsFilter(Documents.GetAllDocuments(t), fields, term);
    SubsetNoLarger(Documents.VisibleIds(t), t.Keys);
  }

  lemma {:induction false} SubsetNoLarger(a: set<string>, b: set<string>)
    requires a <= b
    ensures |a| <= |b|
  {
    if a != {} {
      var x :| x in a;
      SubsetNoLarger(a - {x}, b - {x});
    }
  }

  /** Titles: the name for jobs, tools, inventory and crew, the title for
      tasks, the item for orders, "Log: <date>" for logs, "Unknown"
      otherwise. */
  lemma ItemTitleMeaning(category: string, item: Doc)
    ensures category in {"jobs", "tools", "inventory", "crew"} ==> ItemTitle(category, item) == Field(item, "name")
    ensures category == "tasks" ==> ItemTitle(category, item) == Field(item, "title")
    ensures category == "orders" ==> ItemTitle(category, item) == Field(item, "item")
    ensures category == "logs" ==> exists date :: ItemTitle(category, item) == Some(Str("Log: " + date))
    ensures category !in {"jobs", "logs", "tasks", "orders", "tools", "inventory", "crew"} ==>
      ItemTitle(category, item) == Some(Str("Unknown"))
  {
  }

  /** Log and task subtitles, when they are text, are the first (at most)
      50 characters of the notes or description. */
  lemma ExcerptBounded(category: string, item: Doc)
    requires category == "logs" || category == "tasks"
    ensures var k := if category == "logs" then "notes" else "description";
      var sub := ItemSubtitle(category, item);
      (sub.Shown? ==> sub.v.Str? && |sub.v.s| <= 50 && k in item && item[k].Str? && StartsWith(item[k].s, sub.v.s)) &&
      (sub.Shown? && |item[k].s| <= 50 ==> sub.v.s == item[k].s) &&
      (sub.Absent? <==> Field(item, k).None? || Field(item, k) == Some(Null))
  {
  }

  /** A click forwards the hit once, then closes, and leaves an empty query
      and no results; searching that empty query calls nothing and keeps
      the results cleared. */
  lemma ResultClickResets(d: Dialog, c: Collections, category: string, item: Doc)
    ensures var (calls, after) := HandleResultClick(d, category, item);
      calls == [ResultClick(category, item), Close] &&
      after == Dialog("", None) &&
      PerformSearch(after.results, c, after.query) == (None, false) &&
      TotalResults(after.results) == 0
  {
  }
}
