/** src/components/pages/JobDetail.jsx: one job's page. The lists it shows
    are derived from the store's collections; its save handlers force the
    page's job onto new records, and saving a new daily log with hours also
    books a time entry. The job id is the page's `id` URL parameter. */
module JobDetailPage {
  import opened Wrappers
  import opened Json
  import opened Seqs
  import opened Documents
  import opened Validation
  import opened Store
  import opened PageActions
  import JobCard

  // ---------------------------------------------------------------------------
  // Derived lists and totals

  /** The tools tab: `allTools.filter(tool => tool.assignedJobId === jobId)`. */
  function ToolsTab(allTools: seq<Doc>, jobId: string): seq<Doc> {
    Filter(allTools, FieldEquals("assignedJobId", Some(Str(jobId))))
  }

  /** `new Date(log.date)` as a number, for logs whose date parses. */
  function LogInstant(parse: string -> Option<int>): Doc -> int {
    (d: Doc) => var t := InstantOf(Field(d, "date"), parse); if t.Some? then t.value else 0
  }

  /** Later entries first. */
  predicate Descending(s: seq<Doc>, key: Doc -> int) {
    forall i, j :: 0 <= i < j < |s| ==> key(s[j]) <= key(s[i])
  }

  /** `x` placed before the first entry it is not older than. */
  function InsertNewest(x: Doc, s: seq<Doc>, key: Doc -> int): seq<Doc> {
    if s == [] || key(s[0]) <= key(x) then [x] + s
    else [s[0]] + InsertNewest(x, s[1..], key)
  }

  /** `logs.sort((a, b) => new Date(b.date) - new Date(a.date))`: an
      insertion sort, stable like the array sort. */
  function NewestFirst(logs: seq<Doc>, key: Doc -> int): seq<Doc> {
    if logs == [] then [] else InsertNewest(logs[0], NewestFirst(logs[1..], key), key)
  }

  lemma {:induction false} InsertNewestPermutes(x: Doc, s: seq<Doc>, key: Doc -> int)
    ensures multiset(InsertNewest(x, s, key)) == multiset(s) + multiset{x}
  {
    if s != [] && key(x) < key(s[0]) {
      InsertNewestPermutes(x, s[1..], key);
      assert s == [s[0]] + s[1..];
    }
  }

  /** No entry of `s` is later than `bound`. */
  predicate NoneAfter(s: seq<Doc>, key: Doc -> int, bound: int) {
    forall i :: 0 <= i < |s| ==> key(s[i]) <= bound
  }

  lemma DescendingCons(y: Doc, s: seq<Doc>, key: Doc -> int)
    requires Descending(s, key) && NoneAfter(s, key, key(y))
    ensures Descending([y] + s, key)
  {
    var r := [y] + s;
    forall i, j | 0 <= i < j < |r|
      ensures key(r[j]) <= key(r[i])
    {
      assert r[j] == s[j - 1];
      if i > 0 {
        assert r[i] == s[i - 1];
      }
    }
  }

  lemma {:induction false} InsertNewestBounded(x: Doc, s: seq<Doc>, key: Doc -> int, bound: int)
    requires NoneAfter(s, key, bound) && key(x) <= bound
    ensures NoneAfter(InsertNewest(x, s, key), key, bound)
  {
    if s != [] && key(x) < key(s[0]) {
      InsertNewestBounded(x, s[1..], key, bound);
      var r := InsertNewest(x, s, key);
      assert r == [s[0]] + InsertNewest(x, s[1..], key);
      forall i | 0 <= i < |r|
        ensures key(r[i]) <= bound
      {
        if i > 0 {
          assert r[i] == InsertNewest(x, s[1..], key)[i - 1];
        }
      }
    }
  }

  lemma {:induction false} InsertNewestKeepsOrder(x: Doc, s: seq<Doc>, key: Doc -> int)
    requires Descending(s, key)
    ensures Descending(InsertNewest(x, s, key), key)
  {
    if s == [] || key(s[0]) <= key(x) {
      DescendingCons(x, s, key);
    } else {
      var tail := s[1..];
      assert Descending(tail, key) by {
        forall i, j | 0 <= i < j < |tail|
          ensures key(tail[j]) <= key(tail[i])
        {
          assert tail[i] == s[i + 1] && tail[j] == s[j + 1];
        }
      }
      assert NoneAfter(tail, key, key(s[0])) by {
        forall i | 0 <= i < |tail|
          ensures key(tail[i]) <= key(s[0])
        {
          assert tail[i] == s[i + 1];
        }
      }
      InsertNewestKeepsOrder(x, tail, key);
      InsertNewestBounded(x, tail, key, key(s[0]));
      DescendingCons(s[0], InsertNewest(x, tail, key), key);
    }
  }

  /** The sorted logs are the same logs, each as often as before, newest first. */
  lemma {:induction false} NewestFirstSorts(logs: seq<Doc>, key: Doc -> int)
    ensures multiset(NewestFirst(logs, key)) == multiset(logs)
    ensures Descending(NewestFirst(logs, key), key)
  {
    if logs != [] {
      NewestFirstSorts(logs[1..], key);
      InsertNewestPermutes(logs[0], NewestFirst(logs[1..], key), key);
      InsertNewestKeepsOrder(logs[0], NewestFirst(logs[1..], key), key);
      assert logs == [logs[0]] + logs[1..];
    }
  }

  /** "Total Hours": `timeEntries.reduce((sum, te) => sum + (te.hours || 0), 0)`. */
  function TotalHours(entries: seq<Doc>): int {
    SumOf(entries, JobCard.Hours())
  }

  /** The "Active Tasks" figure. */
  function ActiveCount(tasks: seq<Doc>): nat {
    Count(tasks, JobCard.NotCompleted())
  }

  /** The "N completed" figure. */
  function CompletedCount(tasks: seq<Doc>): nat {
    Count(tasks, (t: Doc) => FieldIs(t, "status", "completed"))
  }

  // ---------------------------------------------------------------------------
  // Handlers

  /** The field that ties a new record of `kind` to the page's job. */
  function JobKey(kind: Kind): string {
    if kind == Tools then "assignedJobId" else "jobId"
  }

  /** `{ ...data, [key]: jobId }`. */
  function WithJob(data: Doc, key: string, jobId: string): (d: Doc)
    ensures Field(d, key) == Some(Str(jobId))
    ensures forall k :: k != key ==> Field(d, k) == Field(data, k)
  {
    data[key := Str(jobId)]
  }

  /** `handleSaveTask`, `handleSaveOrder` and `handleSaveTool`: an edit
      updates the edited document with the form's data as it is; a new
      record gets the page's job id, whatever the form said. */
  method HandleSaveForJob(store: EntityStore, kind: Kind, jobId: string, editingId: Option<string>,
                          data: Doc, freshId: string, now: string) returns (r: Result<Doc, StoreError>)
    requires kind == Tasks || kind == Orders || kind == Tools
    requires store.Valid()
    modifies store
    ensures store.Valid()
    ensures editingId.Some? ==> var s := UpdateDocument(old(store.Table(kind)), editingId.value, data, now);
      r == s.result && store.Table(kind) == s.table
    ensures editingId.None? ==>
      var s := CreateDocument(old(store.Table(kind)), WithJob(data, JobKey(kind), jobId), RequiredFields(kind), freshId, now);
      r == s.result && store.Table(kind) == s.table
    ensures forall other: Kind :: other != kind ==> store.Table(other) == old(store.Table(other))
  {
    var toSave := if editingId.Some? then data else WithJob(data, JobKey(kind), jobId);
    r := SaveOrCreate(store, kind, editingId, toSave, freshId, now);
  }

  /** `data.hoursWorked > 0`. */
  predicate HasHours(data: Doc) {
    NumberOf(Field(data, "hoursWorked")).Some? && NumberOf(Field(data, "hoursWorked")).value > 0
  }

  /** The time entry booked with a new log:
      `{ jobId, date: data.date, hours: data.hoursWorked, logId: newLog._id }`. */
  function TimeEntryFor(jobId: string, data: Doc, newLog: Doc): (e: Doc)
    ensures Field(e, "jobId") == Some(Str(jobId)) && Field(e, "date") == Field(data, "date")
    ensures Field(e, "hours") == Field(data, "hoursWorked") && Field(e, "logId") == Field(newLog, "_id")
    ensures e.Keys <= {"jobId", "date", "hours", "logId"}
  {
    var e := SetField(map["jobId" := Str(jobId)], "date", Field(data, "date"));
    SetField(SetField(e, "hours", Field(data, "hoursWorked")), "logId", Field(newLog, "_id"))
  }

  /** `handleSaveLog`: an edit updates the log only. A new log is created
      for the page's job; when that succeeds and hours were worked, a time
      entry for them is created too (`entry`). A failed log create throws,
      so no entry follows it. */
  method HandleSaveLog(store: EntityStore, jobId: string, editingId: Option<string>, data: Doc,
                       logId: string, entryId: string, now: string)
    returns (r: Result<Doc, StoreError>, entry: Option<Result<Doc, StoreError>>)
    requires store.Valid()
    modifies store
    ensures store.Valid()
    ensures editingId.Some? ==> var s := UpdateDocument(old(store.logs), editingId.value, data, now);
      r == s.result && store.logs == s.table && entry.None? && store.Table(TimeEntries) == old(store.Table(TimeEntries))
    ensures editingId.None? ==>
      var s := CreateDocument(old(store.logs), WithJob(data, "jobId", jobId), RequiredFields(Logs), logId, now);
      r == s.result && store.logs == s.table
    ensures editingId.None? && r.Success? && HasHours(data) ==>
      var s := CreateDocument(old(store.timeEntries), TimeEntryFor(jobId, data, r.value), RequiredFields(TimeEntries), entryId, now);
      entry == Some(s.result) && store.timeEntries == s.table
    ensures editingId.Some? || r.Failure? || !HasHours(data) ==>
      entry.None? && store.Table(TimeEntries) == old(store.Table(TimeEntries))
    ensures forall kind: Kind :: kind != Logs && kind != TimeEntries ==> store.Table(kind) == old(store.Table(kind))
  {
    entry := None;
    if editingId.Some? {
      r := store.Update(Logs, editingId.value, data, now);
    } else {
      r := store.Create(Logs, WithJob(data, "jobId", jobId), logId, now);
      assert store.Table(TimeEntries) == old(store.Table(TimeEntries));
      if r.Success? && HasHours(data) {
        var e := store.Create(TimeEntries, TimeEntryFor(jobId, data, r.value), entryId, now);
        entry := Some(e);
      }
    }
  }

  /** `handleDeleteJob`: after confirmation, removes the job document and
      nothing else, although the prompt announces "all associated data":
      the job's tasks, orders, logs, tools and time entries all remain. */
  method HandleDeleteJob(store: EntityStore, jobId: string, confirmed: bool)
    returns (r: Option<Result<string, StoreError>>)
    requires store.Valid()
    modifies store
    ensures store.Valid()
    ensures confirmed ==> r == Some(DeleteDocument(old(store.jobs), jobId).result) && store.jobs == old(store.jobs) - {jobId}
    ensures !confirmed ==> r.None? && store.jobs == old(store.jobs)
    ensures forall kind: Kind :: kind != Jobs ==> store.Table(kind) == old(store.Table(kind))
  {
    r := ConfirmDelete(store, Jobs, jobId, confirmed);
  }

  // ---------------------------------------------------------------------------
  // Properties

  /** The tools tab lists exactly the tools assigned to the page's job, in
      listing order: the same list as the card's tools for that job and as
      the tools' `getByJob`. */
  lemma ToolsTabMeaning(allTools: seq<Doc>, job: Doc, jobId: string)
    requires Field(job, "_id") == Some(Str(jobId))
    ensures IsSublist(ToolsTab(allTools, jobId), allTools)
    ensures forall t :: t in ToolsTab(allTools, jobId) <==> t in allTools && FieldIs(t, "assignedJobId", jobId)
    ensures ToolsTab(allTools, jobId) == JobCard.JobTools(job, allTools)
  {
    FilterIsSublist(allTools, FieldEquals("assignedJobId", Some(Str(jobId))));
    FilterCongruent(allTools, FieldEquals("assignedJobId", Some(Str(jobId))), JobCard.RefersTo("assignedJobId", job));
  }

  /** The logs tab holds the job's logs, each as often as stored, and, when
      every date parses, the later date first. */
  lemma LogsNewestFirst(logs: seq<Doc>, parse: string -> Option<int>)
    requires forall d :: d in logs ==> InstantOf(Field(d, "date"), parse).Some?
    ensures multiset(NewestFirst(logs, LogInstant(parse))) == multiset(logs)
    ensures forall d :: d in NewestFirst(logs, LogInstant(parse)) ==> InstantOf(Field(d, "date"), parse).Some?
    ensures forall i, j :: 0 <= i < j < |NewestFirst(logs, LogInstant(parse))| ==>
      InstantOf(Field(NewestFirst(logs, LogInstant(parse))[j], "date"), parse).value <=
      InstantOf(Field(NewestFirst(logs, LogInstant(parse))[i], "date"), parse).value
  {
    var s := NewestFirst(logs, LogInstant(parse));
    NewestFirstSorts(logs, LogInstant(parse));
    forall d | d in s
      ensures InstantOf(Field(d, "date"), parse).Some?
    {
      assert d in multiset(s);
    }
  }

  /** Active and completed tasks add up to all of them. */
  lemma TaskCountsAddUp(tasks: seq<Doc>)
    ensures ActiveCount(tasks) + CompletedCount(tasks) == |tasks|
  {
    CountComplement(tasks, (t: Doc) => FieldIs(t, "status", "completed"), JobCard.NotCompleted());
  }

  /** With every entry's hours between 0 and `cap`, the total lies between
      0 and `cap` times the number of entries; missing hours count as 0. */
  lemma TotalHoursBounds(entries: seq<Doc>, cap: int)
    requires cap >= 0
    requires forall e :: e in entries ==> 0 <= NumOrZero(Field(e, "hours")) <= cap
    ensures 0 <= TotalHours(entries) <= |entries| * cap
  {
    SumBounds(entries, JobCard.Hours(), 0, cap);
  }

  /** A new record is created with the page's job id, whatever the form's
      data said; only that field differs from the form's data. */
  lemma NewRecordBelongsToJob(t: Table, kind: Kind, jobId: string, data: Doc, freshId: string, now: string)
    requires kind == Tasks || kind == Orders || kind == Tools
    ensures var s := CreateDocument(t, WithJob(data, JobKey(kind), jobId), RequiredFields(kind), freshId, now);
      s.result.Success? ==>
        Field(s.result.value, JobKey(kind)) == Some(Str(jobId)) &&
        forall k :: k != JobKey(kind) && k != "_id" && k != "createdAt" && k != "updatedAt" ==>
          Field(s.result.value, k) == Field(data, k)
  {
    var d := WithJob(data, JobKey(kind), jobId);
    var s := CreateDocument(t, d, RequiredFields(kind), freshId, now);
    if s.result.Success? {
      var n := NewDoc(d, freshId, now);
      assert JobKey(kind) in d;
      assert n[JobKey(kind)] == d[JobKey(kind)];
    }
  }

  /** The time entry booked with a new log. */
  predicate EntryBooked(entries: Table, jobId: string, data: Doc, log: Doc, entryId: string, now: string) {
    var s := CreateDocument(entries, TimeEntryFor(jobId, data, log), RequiredFields(TimeEntries), entryId, now);
    s.result.Success? && s.table.Keys == entries.Keys + {entryId} &&
    (forall id :: id in entries ==> s.table[id] == entries[id]) &&
    Field(s.table[entryId], "jobId") == Some(Str(jobId)) &&
    Field(s.table[entryId], "date") == Field(data, "date") &&
    Field(s.table[entryId], "hours") == Field(data, "hoursWorked") &&
    Field(s.table[entryId], "logId") == Field(log, "_id")
  }

  /** Once the new log is stored, its time entry passes validation and,
      under an unused id, is stored as exactly one new entry carrying the
      job, the log's date and hours, and the new log's id. */
  lemma LogBooksOneTimeEntry(logs: Table, entries: Table, jobId: string, data: Doc,
                             logId: string, log: Doc, entryId: string, now: string)
    requires CreateDocument(logs, WithJob(data, "jobId", jobId), RequiredFields(Logs), logId, now).result == Success(log)
    requires HasHours(data) && entryId != "" && entryId !in entries
    ensures EntryBooked(entries, jobId, data, log, entryId, now)
  {
    LogDatePresent(logs, jobId, data, logId, now);
    EntryFromPresentFields(entries, jobId, data, log, entryId, now);
  }

  lemma EntryFromPresentFields(entries: Table, jobId: string, data: Doc, log: Doc, entryId: string, now: string)
    requires !Missing(WithJob(data, "jobId", jobId), "jobId") && !Missing(data, "date")
    requires HasHours(data) && entryId != "" && entryId !in entries
    ensures EntryBooked(entries, jobId, data, log, entryId, now)
  {
    var e := TimeEntryFor(jobId, data, log);
    EntryPasses(e, data, jobId);
    EntryStored(entries, e, entryId, now);
    NewDocKeepsFields(e, entryId, now);
    StoredEntryFields(entries, e, entryId, now);
  }

  /** The fields of the entry stored under `entryId`. */
  lemma StoredEntryFields(entries: Table, e: Doc, entryId: string, now: string)
    requires var s := CreateDocument(entries, e, RequiredFields(TimeEntries), entryId, now);
      s.result.Success? && s.table == entries[entryId := NewDoc(e, entryId, now)]
    requires forall k :: k != "_id" && k != "createdAt" && k != "updatedAt" ==> Field(NewDoc(e, entryId, now), k) == Field(e, k)
    ensures var s := CreateDocument(entries, e, RequiredFields(TimeEntries), entryId, now);
      s.table.Keys == entries.Keys + {entryId} &&
      (forall id :: id in entries && id != entryId ==> s.table[id] == entries[id]) &&
      Field(s.table[entryId], "jobId") == Field(e, "jobId") && Field(s.table[entryId], "date") == Field(e, "date") &&
      Field(s.table[entryId], "hours") == Field(e, "hours") && Field(s.table[entryId], "logId") == Field(e, "logId")
  {
    var n := NewDoc(e, entryId, now);
    assert Field(n, "jobId") == Field(e, "jobId") && Field(n, "date") == Field(e, "date");
    assert Field(n, "hours") == Field(e, "hours") && Field(n, "logId") == Field(e, "logId");
  }

  /** A stored log had a date. */
  lemma LogDatePresent(logs: Table, jobId: string, data: Doc, logId: string, now: string)
    requires CreateDocument(logs, WithJob(data, "jobId", jobId), RequiredFields(Logs), logId, now).result.Success?
    ensures !Missing(WithJob(data, "jobId", jobId), "jobId") && !Missing(data, "date")
  {
    var d := WithJob(data, "jobId", jobId);
    assert Violations(d, RequiredFields(Logs)) == [];
    assert RequiredFields(Logs)[0] == "jobId" && RequiredFields(Logs)[1] == "date";
    assert !Missing(d, "date");
    SameFieldSameMissing(d, data, "date");
  }

  /** Whether a field is missing depends on that field alone. */
  lemma SameFieldSameMissing(a: Doc, b: Doc, k: string)
    requires Field(a, k) == Field(b, k)
    ensures Missing(a, k) == Missing(b, k)
  {
  }

  lemma EntryPasses(e: Doc, data: Doc, jobId: string)
    requires Field(e, "jobId") == Some(Str(jobId)) && Field(e, "date") == Field(data, "date")
    requires Field(e, "hours") == Field(data, "hoursWorked")
    requires !Missing(WithJob(data, "jobId", jobId), "jobId") && !Missing(data, "date") && HasHours(data)
    ensures Violations(e, RequiredFields(TimeEntries)) == []
  {
    SameFieldSameMissing(e, WithJob(data, "jobId", jobId), "jobId");
    SameFieldSameMissing(e, data, "date");
    var req := RequiredFields(TimeEntries);
    assert req == ["jobId", "date", "hours"];
    assert !Missing(e, "jobId");
    assert !Missing(e, "date");
    assert !Missing(e, "hours");
  }

  /** A valid entry without an id of its own is stored under a fresh one. */
  lemma EntryStored(entries: Table, e: Doc, entryId: string, now: string)
    requires Violations(e, RequiredFields(TimeEntries)) == [] && "_id" !in e
    requires entryId != "" && entryId !in entries
    ensures var s := CreateDocument(entries, e, RequiredFields(TimeEntries), entryId, now);
      s.result.Success? && s.table == entries[entryId := NewDoc(e, entryId, now)]
  {
    var n := NewDoc(e, entryId, now);
    assert Field(n, "_id") == Some(Str(entryId));
  }

  /** A created document keeps every field of its data except the id and
      the two timestamps. */
  lemma NewDocKeepsFields(e: Doc, freshId: string, now: string)
    ensures forall k :: k != "_id" && k != "createdAt" && k != "updatedAt" ==> Field(NewDoc(e, freshId, now), k) == Field(e, k)
  {
  }
}
