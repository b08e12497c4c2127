/** src/components/dashboard/DashboardStats.jsx: the six tiles over all
    jobs, tasks, orders, tools and time entries. */
module DashboardStats {
  import opened Wrappers
  import opened Json
  import opened Seqs
  import JobCard

  function IsActiveJob(): Doc -> bool {
    (j: Doc) => FieldIs(j, "status", "active") || !FieldTruthy(j, "status")
  }

  function IsCompleted(): Doc -> bool {
    (t: Doc) => FieldIs(t, "status", "completed")
  }

  function IsAvailable(): Doc -> bool {
    (t: Doc) => !FieldTruthy(t, "assignedJobId")
  }

  /** "Active Jobs". */
  function ActiveJobs(jobs: seq<Doc>): nat {
    Count(jobs, IsActiveJob())
  }

  /** "Tasks Done": `${completed}/${total}`. */
  function TasksDone(tasks: seq<Doc>): (r: (nat, nat))
    ensures r.0 <= r.1 == |tasks|
  {
    (Count(tasks, IsCompleted()), |tasks|)
  }

  function TasksDoneText(tasks: seq<Doc>): string {
    NatToString(TasksDone(tasks).0) + "/" + NatToString(TasksDone(tasks).1)
  }

  /** "Pending Orders". */
  function PendingOrders(orders: seq<Doc>): nat {
    Count(orders, JobCard.IsPending())
  }

  /** "Tools Available": tools with a falsy `assignedJobId`. */
  function AvailableTools(tools: seq<Doc>): nat {
    Count(tools, IsAvailable())
  }

  /** "Hours/Week". */
  function HoursThisWeek(entries: seq<Doc>, weekStart: int, parse: string -> Option<int>): int {
    SumOf(Filter(entries, JobCard.InWeek(weekStart, parse)), JobCard.Hours())
  }

  /** `Math.ceil(ms / day)`. */
  function CeilDays(ms: int): (d: int)
    ensures (d - 1) * JobCard.DayMs < ms <= d * JobCard.DayMs
  {
    -((-ms) / JobCard.DayMs)
  }

  /** The urgent-task filter: a due date, not completed, and at most two
      days away after rounding up (an Invalid Date compares false). */
  function IsUrgent(now: int, parse: string -> Option<int>): Doc -> bool {
    (t: Doc) =>
      FieldTruthy(t, "dueDate") && !FieldIs(t, "status", "completed") &&
      JobCard.DueOf(t, parse).Some? && CeilDays(JobCard.DueOf(t, parse).value - now) <= 2
  }

  /** "Urgent". */
  function UrgentTasks(tasks: seq<Doc>, now: int, parse: string -> Option<int>): nat {
    Count(tasks, IsUrgent(now, parse))
  }

  /** The Urgent tile's colour. */
  function UrgentColor(urgent: nat): string {
    if urgent > 0 then "bg-red-500" else "bg-gray-400"
  }

  // ---------------------------------------------------------------------------

  /** A job with status "" or none at all counts as active; any other status
      but 'active' does not. */
  lemma ActiveJobMeaning(j: Doc)
    ensures IsActiveJob()(j) <==> "status" !in j || j["status"] in {Str("active"), Str(""), Null, Bool(false), Num(0)}
  {
  }

  /** Tools whose `assignedJobId` is missing, `null` or '' are all available. */
  lemma AvailableToolMeaning(t: Doc)
    ensures IsAvailable()(t) <==> "assignedJobId" !in t || t["assignedJobId"] in {Str(""), Null, Bool(false), Num(0)}
  {
  }

  /** In instants: a task counts as urgent when it is due at most two full
      days from now. */
  lemma UrgentIffWithinTwoDays(t: Doc, now: int, parse: string -> Option<int>)
    requires FieldTruthy(t, "dueDate") && !FieldIs(t, "status", "completed") && JobCard.DueOf(t, parse).Some?
    ensures IsUrgent(now, parse)(t) <==> JobCard.DueOf(t, parse).value - now <= 2 * JobCard.DayMs
  {
  }

  /** Every overdue open task is counted as urgent. */
  lemma OverdueCounted(tasks: seq<Doc>, now: int, parse: string -> Option<int>)
    ensures Count(tasks, (t: Doc) => FieldTruthy(t, "dueDate") && !FieldIs(t, "status", "completed") &&
                                     JobCard.DueOf(t, parse).Some? && JobCard.DueOf(t, parse).value < now)
         <= UrgentTasks(tasks, now, parse)
  {
    CountMonotone(tasks,
      (t: Doc) => FieldTruthy(t, "dueDate") && !FieldIs(t, "status", "completed") &&
                  JobCard.DueOf(t, parse).Some? && JobCard.DueOf(t, parse).value < now,
      IsUrgent(now, parse));
  }

  /** The tile is red exactly when some task is urgent. */
  lemma UrgentTileRedIffAny(tasks: seq<Doc>, now: int, parse: string -> Option<int>)
    ensures UrgentColor(UrgentTasks(tasks, now, parse)) == "bg-red-500" <==>
      exists t :: t in tasks && IsUrgent(now, parse)(t)
  {
    var f := Filter(tasks, IsUrgent(now, parse));
    if f != [] {
      assert f[0] in f;
    }
  }

  // ---------------------------------------------------------------------------
  // Against the job card

  /** A task the dashboard counts as urgent is labelled urgent on its job card. */
  lemma DashboardUrgentIsCardUrgent(t: Doc, now: int, parse: string -> Option<int>)
    requires IsUrgent(now, parse)(t)
    ensures JobCard.PriorityFromDueDate(Field(t, "dueDate"), now, parse) == JobCard.Urgent
  {
    JobCard.UrgentIffUnderThreeDays(JobCard.DueOf(t, parse).value, now);
  }

  /** The converse fails: the card truncates days while the dashboard
      rounds up, so a task due between two and three days from now is
      urgent on the card but not on the dashboard (2.5 days, say). */
  lemma RoundingDisagrees(t: Doc, now: int, parse: string -> Option<int>)
    requires FieldTruthy(t, "dueDate") && !FieldIs(t, "status", "completed")
    requires JobCard.DueOf(t, parse) == Some(now + 5 * JobCard.DayMs / 2)
    ensures JobCard.PriorityFromDueDate(Field(t, "dueDate"), now, parse) == JobCard.Urgent
    ensures !IsUrgent(now, parse)(t)
  {
    JobCard.UrgentIffUnderThreeDays(now + 5 * JobCard.DayMs / 2, now);
  }

  /** A job card's weekly hours never exceed the dashboard's when hours
      are not negative. */
  lemma CardHoursWithinDashboard(job: Doc, entries: seq<Doc>, weekStart: int, parse: string -> Option<int>)
    requires forall i :: 0 <= i < |entries| ==> JobCard.Hours()(entries[i]) >= 0
    ensures JobCard.HoursThisWeek(job, entries, weekStart, parse) <= HoursThisWeek(entries, weekStart, parse)
  {
    var belongs := JobCard.RefersTo("jobId", job);
    var inWeek := JobCard.InWeek(weekStart, parse);
    var both := (te: Doc) => belongs(te) && inWeek(te);
    FilterFilter(entries, belongs, inWeek, both);
    SumFilterMonotone(entries, JobCard.Hours(), both, inWeek);
  }
}
