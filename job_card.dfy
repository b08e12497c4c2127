/** src/components/dashboard/JobCard.jsx: the per-job summary card. Instants
    are milliseconds; `now` and the start of the current week (Sunday 00:00)
    are supplied, as is the date-string parser behind `new Date(s)`. */
module JobCard {
  import opened Wrappers
  import opened Json
  import opened Seqs

  const DayMs := 86400000

  datatype Priority = Urgent | High | Medium | Low

  /** Position in the urgency order, most urgent first. */
  function Rank(p: Priority): nat {
    match p
    case Urgent => 0
    case High => 1
    case Medium => 2
    case Low => 3
  }

  /** `differenceInDays(due, now)`: whole days, truncated toward zero. */
  function WholeDays(ms: int): (d: int)
    ensures ms >= 0 ==> d * DayMs <= ms < (d + 1) * DayMs
    ensures ms < 0 ==> (d - 1) * DayMs < ms <= d * DayMs
  {
    if ms >= 0 then ms / DayMs else -((-ms) / DayMs)
  }

  lemma WholeDaysMonotone(a: int, b: int)
    requires a <= b
    ensures WholeDays(a) <= WholeDays(b)
  {
    if a < 0 && b >= 0 {
    } else if a >= 0 {
      assert WholeDays(a) * DayMs <= a <= b < (WholeDays(b) + 1) * DayMs;
    } else {
      assert (WholeDays(a) - 1) * DayMs < a <= b <= WholeDays(b) * DayMs;
    }
  }

  /** The if-chain of `getPriorityFromDueDate` on a day count. */
  function PriorityFromDays(days: int): Priority {
    if days < 0 then Urgent
    else if days <= 2 then Urgent
    else if days <= 7 then High
    else if days <= 14 then Medium
    else Low
  }

  /** `getPriorityFromDueDate(dueDate)`: a falsy or unparseable due date is 'low'
      (an Invalid Date makes every comparison false). */
  function PriorityFromDueDate(dueDate: Option<Value>, now: int, parse: string -> Option<int>): Priority {
    if !Truthy(dueDate) then Low
    else match InstantOf(dueDate, parse)
      case None => Low
      case Some(due) => PriorityFromDays(WholeDays(due - now))
  }

  /** The classification table: urgent up to 2 whole days ahead (and when
      overdue), high for 3..7, medium for 8..14, low beyond. */
  lemma PriorityTable(days: int)
    ensures PriorityFromDays(days) == Urgent <==> days <= 2
    ensures PriorityFromDays(days) == High <==> 3 <= days <= 7
    ensures PriorityFromDays(days) == Medium <==> 8 <= days <= 14
    ensures PriorityFromDays(days) == Low <==> 15 <= days
  {
  }

  /** In instants: a due date is urgent exactly when it is less than three
      full days away. */
  lemma UrgentIffUnderThreeDays(due: int, now: int)
    ensures PriorityFromDays(WholeDays(due - now)) == Urgent <==> due - now < 3 * DayMs
  {
  }

  /** A later due date never gets a more urgent label. */
  lemma PriorityMonotone(due1: int, due2: int, now: int)
    requires due1 <= due2
    ensures Rank(PriorityFromDays(WholeDays(due1 - now))) <= Rank(PriorityFromDays(WholeDays(due2 - now)))
  {
    WholeDaysMonotone(due1 - now, due2 - now);
  }

  // ---------------------------------------------------------------------------
  // The card's lists and counts

  /** `x[k] === job._id`. */
  function RefersTo(k: string, job: Doc): Doc -> bool {
    (x: Doc) => StrictEq(Field(x, k), Field(job, "_id"))
  }

  function NotCompleted(): Doc -> bool {
    (t: Doc) => !FieldIs(t, "status", "completed")
  }

  function HighOrUrgent(): Doc -> bool {
    (t: Doc) => FieldIs(t, "priority", "high") || FieldIs(t, "priority", "urgent")
  }

  function IsPending(): Doc -> bool {
    (o: Doc) => FieldIs(o, "status", "pending")
  }

  function JobTasks(job: Doc, tasks: seq<Doc>): seq<Doc> {
    Filter(tasks, RefersTo("jobId", job))
  }

  /** The "N tasks" figure. */
  function ActiveTasks(job: Doc, tasks: seq<Doc>): seq<Doc> {
    Filter(JobTasks(job, tasks), NotCompleted())
  }

  /** The "N!" badge, shown when non-empty; status is not consulted. */
  function HighPriorityTasks(job: Doc, tasks: seq<Doc>): seq<Doc> {
    Filter(JobTasks(job, tasks), HighOrUrgent())
  }

  /** The "N orders" figure. */
  function PendingOrders(job: Doc, orders: seq<Doc>): seq<Doc> {
    Filter(Filter(orders, RefersTo("jobId", job)), IsPending())
  }

  /** The "N tools" figure. */
  function JobTools(job: Doc, tools: seq<Doc>): seq<Doc> {
    Filter(tools, RefersTo("assignedJobId", job))
  }

  /** `new Date(te.date) >= weekStart`; an Invalid Date is never in the week. */
  function InWeek(weekStart: int, parse: string -> Option<int>): Doc -> bool {
    (te: Doc) => InstantOf(Field(te, "date"), parse).Some? && InstantOf(Field(te, "date"), parse).value >= weekStart
  }

  /** `te.hours || 0`. */
  function Hours(): Doc -> int {
    (te: Doc) => NumOrZero(Field(te, "hours"))
  }

  /** `hoursThisWeek`: this job's entries dated in the current week. */
  function HoursThisWeek(job: Doc, entries: seq<Doc>, weekStart: int, parse: string -> Option<int>): int {
    SumOf(Filter(Filter(entries, RefersTo("jobId", job)), InWeek(weekStart, parse)), Hours())
  }

  /** Each listed figure counts exactly the documents the card describes. */
  lemma CardListsSelect(job: Doc, tasks: seq<Doc>, orders: seq<Doc>, tools: seq<Doc>)
    ensures forall t :: t in ActiveTasks(job, tasks) <==>
      t in tasks && StrictEq(Field(t, "jobId"), Field(job, "_id")) && !FieldIs(t, "status", "completed")
    ensures forall t :: t in HighPriorityTasks(job, tasks) <==>
      t in tasks && StrictEq(Field(t, "jobId"), Field(job, "_id")) &&
      (FieldIs(t, "priority", "high") || FieldIs(t, "priority", "urgent"))
    ensures forall o :: o in PendingOrders(job, orders) <==>
      o in orders && StrictEq(Field(o, "jobId"), Field(job, "_id")) && FieldIs(o, "status", "pending")
    ensures forall x :: x in JobTools(job, tools) <==>
      x in tools && StrictEq(Field(x, "assignedJobId"), Field(job, "_id"))
  {
  }

  /** The active tasks and the completed ones make up all of the job's tasks. */
  lemma ActivePlusCompleted(job: Doc, tasks: seq<Doc>)
    ensures |ActiveTasks(job, tasks)| + Count(JobTasks(job, tasks), (t: Doc) => FieldIs(t, "status", "completed"))
      == |JobTasks(job, tasks)|
  {
    CountComplement(JobTasks(job, tasks), (t: Doc) => FieldIs(t, "status", "completed"), NotCompleted());
  }

  // ---------------------------------------------------------------------------
  // Nearest deadline

  /** Tasks with a due date that are not completed. */
  function Upcoming(job: Doc, tasks: seq<Doc>): seq<Doc> {
    Filter(JobTasks(job, tasks), (t: Doc) => FieldTruthy(t, "dueDate") && !FieldIs(t, "status", "completed"))
  }

  function DueOf(t: Doc, parse: string -> Option<int>): Option<int> {
    InstantOf(Field(t, "dueDate"), parse)
  }

  /** `a` sorts strictly before `b` by due date; unparseable dates sort last. */
  predicate Before(a: Doc, b: Doc, parse: string -> Option<int>) {
    DueOf(a, parse).Some? && (DueOf(b, parse).None? || DueOf(a, parse).value < DueOf(b, parse).value)
  }

  /** The first element after sorting by due date (the sort is stable):
      none is due before it, and among equal due dates the earliest
      position wins, so everything ahead of it is due strictly later. */
  function Earliest(s: seq<Doc>, parse: string -> Option<int>): (r: Option<Doc>)
    ensures r.None? <==> s == []
    ensures r.Some? ==> r.value in s && forall x :: x in s ==> !Before(x, r.value, parse)
    ensures r.Some? ==>
      exists i :: 0 <= i < |s| && s[i] == r.value && (forall j :: 0 <= j < i ==> Before(r.value, s[j], parse))
  {
    if s == [] then None
    else
      var rest := Earliest(s[1..], parse);
      assert forall x :: x in s ==> x == s[0] || x in s[1..];
      if rest.None? || !Before(rest.value, s[0], parse) then
        assert forall x :: x in s[1..] ==> !Before(x, s[0], parse);
        Some(s[0])
      else
        var k :| 0 <= k < |s[1..]| && s[1..][k] == rest.value &&
          (forall j :: 0 <= j < k ==> Before(rest.value, s[1..][j], parse));
        assert s[k + 1] == rest.value;
        assert forall j :: 0 <= j < k + 1 ==> Before(rest.value, s[j], parse) by {
          forall j | 0 <= j < k + 1
            ensures Before(rest.value, s[j], parse)
          {
            if j > 0 {
              assert s[j] == s[1..][j - 1];
            }
          }
        }
        rest
  }

  function NearestDeadline(job: Doc, tasks: seq<Doc>, parse: string -> Option<int>): Option<Doc> {
    Earliest(Upcoming(job, tasks), parse)
  }

  /** `deadlinePriority`: computed only when there is a nearest deadline. */
  function DeadlinePriority(job: Doc, tasks: seq<Doc>, now: int, parse: string -> Option<int>): Option<Priority> {
    match NearestDeadline(job, tasks, parse)
    case None => None
    case Some(t) => Some(PriorityFromDueDate(Field(t, "dueDate"), now, parse))
  }

  /** There is a deadline exactly when the job has an open task with a due
      date, and it is one of them. */
  lemma NearestDeadlineExists(job: Doc, tasks: seq<Doc>, parse: string -> Option<int>)
    ensures DeadlinePriority(job, tasks, 0, parse).None? <==>
      !exists t :: t in tasks && StrictEq(Field(t, "jobId"), Field(job, "_id")) &&
        FieldTruthy(t, "dueDate") && !FieldIs(t, "status", "completed")
    ensures NearestDeadline(job, tasks, parse).Some? ==>
      var t := NearestDeadline(job, tasks, parse).value;
      t in tasks && FieldTruthy(t, "dueDate") && !FieldIs(t, "status", "completed")
  {
    var u := Upcoming(job, tasks);
    if u != [] {
      assert u[0] in u;
    }
  }

  /** The deadline badge is at least as urgent as the label of any open
      task of the job whose due date parses. */
  lemma DeadlineIsMostUrgent(job: Doc, tasks: seq<Doc>, now: int, parse: string -> Option<int>, t: Doc)
    requires t in Upcoming(job, tasks) && DueOf(t, parse).Some?
    ensures DeadlinePriority(job, tasks, now, parse).Some?
    ensures Rank(DeadlinePriority(job, tasks, now, parse).value) <= Rank(PriorityFromDueDate(Field(t, "dueDate"), now, parse))
  {
    var n := NearestDeadline(job, tasks, parse).value;
    assert !Before(t, n, parse);
    assert n in Upcoming(job, tasks);
    PriorityMonotone(DueOf(n, parse).value, DueOf(t, parse).value, now);
  }
}
