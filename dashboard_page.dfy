/** src/components/pages/Dashboard.jsx: the job list under its status
    filter, the search-result click and the new-job handler. */
module DashboardPage {
  import opened Wrappers
  import opened Json
  import opened Seqs
  import opened Documents
  import opened Store
  import opened Utils
  import DashboardStats

  /** The status filter's choices, in the order the selector lists them. */
  const FilterChoices: seq<string> := ["all", "active", "on-hold", "completed"]

  /** The predicate of `filteredJobs` for the selected `filterStatus`. */
  function Shown(filterStatus: string): Doc -> bool {
    (job: Doc) => filterStatus == "all" || FieldIs(job, "status", filterStatus) ||
      (!FieldTruthy(job, "status") && filterStatus == "active")
  }

  /** `jobs.filter(...)`. */
  function FilteredJobs(jobs: seq<Doc>, filterStatus: string): seq<Doc> {
    Filter(jobs, Shown(filterStatus))
  }

  /** `handleSearchResult(category, item)`: the address navigated to, or
      `None` when the click does nothing. `baseUrl` is the deployment's base. */
  function HandleSearchResult(category: string, item: Doc, baseUrl: Option<Value>): Option<string> {
    if category == "jobs" then Some(CreatePageUrl(Some("JobDetail?id=" + ToText(Field(item, "_id"))), baseUrl))
    else None
  }

  /** `handleCreateJob(data)`: the form's data go to `JobsAPI.create`. */
  method HandleCreateJob(store: EntityStore, data: Doc, freshId: string, now: string)
    returns (r: Result<Doc, StoreError>)
    requires store.Valid()
    modifies store
    ensures store.Valid()
    ensures var s := CreateDocument(old(store.jobs), data, RequiredFields(Jobs), freshId, now);
      r == s.result && store.jobs == s.table
    ensures forall kind: Kind :: kind != Jobs ==> store.Table(kind) == old(store.Table(kind))
  {
    r := store.Create(Jobs, data, freshId, now);
  }

  // ---------------------------------------------------------------------------

  /** Whatever the filter, the list is an order-preserving part of the jobs. */
  lemma FilteredIsSublist(jobs: seq<Doc>, filterStatus: string)
    ensures IsSublist(FilteredJobs(jobs, filterStatus), jobs)
  {
    FilterIsSublist(jobs, Shown(filterStatus));
  }

  /** "all" keeps every job. */
  lemma AllKeepsEveryJob(jobs: seq<Doc>)
    ensures FilteredJobs(jobs, "all") == jobs
  {
    FilterAll(jobs, Shown("all"));
  }

  /** "active" keeps the jobs whose status is "active" or unset: exactly
      those the "Active Jobs" tile counts. */
  lemma ActiveFilterMatchesTile(jobs: seq<Doc>)
    ensures FilteredJobs(jobs, "active") == Filter(jobs, DashboardStats.IsActiveJob())
    ensures |FilteredJobs(jobs, "active")| == DashboardStats.ActiveJobs(jobs)
  {
    FilterCongruent(jobs, Shown("active"), DashboardStats.IsActiveJob());
  }

  /** Any other filter keeps exactly the jobs whose status is that value. */
  lemma OtherFilterMatchesStatus(jobs: seq<Doc>, filterStatus: string)
    requires filterStatus != "all" && filterStatus != "active"
    ensures FilteredJobs(jobs, filterStatus) == Filter(jobs, (j: Doc) => FieldIs(j, "status", filterStatus))
    ensures forall j :: j in FilteredJobs(jobs, filterStatus) <==> j in jobs && FieldIs(j, "status", filterStatus)
  {
    FilterCongruent(jobs, Shown(filterStatus), (j: Doc) => FieldIs(j, "status", filterStatus));
  }

  /** The selector offers the two special filters and two statuses matched
      exactly. */
  lemma FilterChoicesMeaning(jobs: seq<Doc>)
    ensures |FilterChoices| == 4 && FilterChoices[0] == "all" && FilterChoices[1] == "active"
    ensures forall i :: 2 <= i < |FilterChoices| ==>
      forall j :: j in FilteredJobs(jobs, FilterChoices[i]) <==> j in jobs && FieldIs(j, "status", FilterChoices[i])
  {
    OtherFilterMatchesStatus(jobs, "on-hold");
    OtherFilterMatchesStatus(jobs, "completed");
  }

  /** Only a job result navigates; with the default base it goes to that
      job's detail page. */
  lemma SearchResultMeaning(category: string, item: Doc, baseUrl: Option<Value>)
    ensures HandleSearchResult(category, item, baseUrl).Some? <==> category == "jobs"
    ensures forall id :: category == "jobs" && Field(item, "_id") == Some(Str(id)) && '/' !in id && baseUrl.None? ==>
      HandleSearchResult(category, item, baseUrl) == Some("/JobDetail?id=" + id)
  {
    forall id | category == "jobs" && Field(item, "_id") == Some(Str(id)) && '/' !in id && baseUrl.None?
      ensures HandleSearchResult(category, item, baseUrl) == Some("/JobDetail?id=" + id)
    {
      JobDetailUrl(id);
    }
  }
}
