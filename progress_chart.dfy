/** src/components/charts/ProgressChart.jsx: the figures behind the three
    charts and the summary card. Days are given as the date strings the
    chart formats them to; `dayText(n)` is day `n`'s `yyyy-MM-dd` text. */
module ProgressChart {
  import opened Wrappers
  import opened Json
  import opened Text
  import opened Seqs
  import JobCard
  import DashboardStats
  import JobDetailPage

  // ---------------------------------------------------------------------------
  // Hours over the last fourteen days

  /** One bar of the hours chart: the hours of the entries dated `day`. */
  function DayHours(entries: seq<Doc>, day: string): int {
    SumOf(Filter(entries, (te: Doc) => FieldIs(te, "date", day)), JobCard.Hours())
  }

  /** The fourteen bars, from thirteen days before `today` to `today`. */
  function HoursSeries(entries: seq<Doc>, today: int, dayText: int -> string): (r: seq<int>)
    ensures |r| == 14
    ensures forall i :: 0 <= i < 14 ==> r[i] == DayHours(entries, dayText(today - 13 + i))
  {
    seq(14, i requires 0 <= i < 14 => DayHours(entries, dayText(today - 13 + i)))
  }

  // ---------------------------------------------------------------------------
  // Job progress

  /** How many jobs the bar chart shows at most. */
  const ChartedJobs: nat := 8

  /** `jobs.slice(0, 8).map(j => j.name.substring(0, 15))`; `None` when a
      charted job's name is not text and `substring` throws. */
  function ProgressLabels(jobs: seq<Doc>): Option<seq<string>> {
    var shown: seq<Doc> := Take(jobs, ChartedJobs);
    if forall i :: 0 <= i < |shown| ==> TextName(shown[i]) then
      Some(seq(|shown|, i requires 0 <= i < |shown| && TextName(shown[i]) => Prefix(shown[i]["name"].s, 15)))
    else None
  }

  /** The job's name is text. */
  predicate TextName(j: Doc) {
    "name" in j && j["name"].Str?
  }

  /** `j.progress || 0`. */
  function Progress(): Doc -> int {
    (j: Doc) => NumOrZero(Field(j, "progress"))
  }

  /** `jobs.slice(0, 8).map(j => j.progress || 0)`. */
  function ProgressBars(jobs: seq<Doc>): seq<int> {
    var shown: seq<Doc> := Take(jobs, ChartedJobs);
    seq(|shown|, i requires 0 <= i < |shown| => Progress()(shown[i]))
  }

  /** "Avg. Job Progress": `Math.round(total / jobs.length)`, 0 without jobs.
      `Math.round` rounds halves up, which is `floor((2 * total + n) / (2 * n))`. */
  function AverageProgress(jobs: seq<Doc>): int {
    if |jobs| == 0 then 0
    else (2 * SumOf(jobs, Progress()) + |jobs|) / (2 * |jobs|)
  }

  // ---------------------------------------------------------------------------
  // Task status and the summary card

  function StatusIs(status: string): Doc -> bool {
    (t: Doc) => FieldIs(t, "status", status)
  }

  /** `taskStatusCounts`. */
  datatype StatusCounts = StatusCounts(pending: nat, inProgress: nat, completed: nat, blocked: nat)

  function TaskStatusCounts(tasks: seq<Doc>): StatusCounts {
    StatusCounts(Count(tasks, StatusIs("pending")), Count(tasks, StatusIs("in-progress")),
                 Count(tasks, StatusIs("completed")), Count(tasks, StatusIs("blocked")))
  }

  /** "Tasks Completed". */
  function TasksCompleted(tasks: seq<Doc>): nat {
    Count(tasks, DashboardStats.IsCompleted())
  }

  /** "High Priority Tasks": priority "urgent" or "high". */
  function HighPriorityCount(tasks: seq<Doc>): nat {
    Count(tasks, JobCard.HighOrUrgent())
  }

  /** "Total Hours Logged": the same sum as a job page's total, over every
      entry. */
  function TotalHoursLogged(entries: seq<Doc>): int {
    JobDetailPage.TotalHours(entries)
  }

  // ---------------------------------------------------------------------------

  /** A day no entry is dated has an empty bar. */
  lemma EmptyDayIsZero(entries: seq<Doc>, day: string)
    requires forall te :: te in entries ==> !FieldIs(te, "date", day)
    ensures DayHours(entries, day) == 0
  {
    var f := Filter(entries, (te: Doc) => FieldIs(te, "date", day));
    if f != [] {
      assert f[0] in f;
    }
  }

  /** With no negative hours, a day's bar never exceeds the hours logged
      in total. */
  lemma DayWithinTotal(entries: seq<Doc>, day: string)
    requires forall i :: 0 <= i < |entries| ==> JobCard.Hours()(entries[i]) >= 0
    ensures 0 <= DayHours(entries, day) <= TotalHoursLogged(entries)
  {
    var p := (te: Doc) => FieldIs(te, "date", day);
    var all := (te: Doc) => true;
    SumFilterMonotone(entries, JobCard.Hours(), p, all);
    FilterAll(entries, all);
    var f := Filter(entries, p);
    forall i | 0 <= i < |f|
      ensures 0 <= JobCard.Hours()(f[i])
    {
      assert f[i] in entries;
    }
    SumNonNegative(f, JobCard.Hours());
  }

  lemma {:induction false} SumNonNegative(s: seq<Doc>, f: Doc -> int)
    requires forall i :: 0 <= i < |s| ==> f(s[i]) >= 0
    ensures SumOf(s, f) >= 0
  {
    if s != [] {
      SumNonNegative(s[1..], f);
    }
  }

  /** Two distinct days share no entry, so their bars add up to the hours
      of the entries dated either day. */
  lemma TwoDaysAddUp(entries: seq<Doc>, day1: string, day2: string)
    requires day1 != day2
    ensures DayHours(entries, day1) + DayHours(entries, day2) ==
      SumOf(Filter(entries, (te: Doc) => FieldIs(te, "date", day1) || FieldIs(te, "date", day2)), JobCard.Hours())
  {
    SumFilterDisjointUnion(entries, JobCard.Hours(), (te: Doc) => FieldIs(te, "date", day1),
      (te: Doc) => FieldIs(te, "date", day2), (te: Doc) => FieldIs(te, "date", day1) || FieldIs(te, "date", day2));
  }

  /** At most eight jobs are charted, the first ones in order, each label
      the first (at most) fifteen characters of its name. */
  lemma ProgressLabelsMeaning(jobs: seq<Doc>)
    ensures |ProgressBars(jobs)| == if |jobs| < 8 then |jobs| else 8
    ensures forall i :: 0 <= i < |ProgressBars(jobs)| ==> ProgressBars(jobs)[i] == NumOrZero(Field(jobs[i], "progress"))
    ensures ProgressLabels(jobs).Some? ==> var labels := ProgressLabels(jobs).value;
      |labels| == |ProgressBars(jobs)| &&
      forall i :: 0 <= i < |labels| ==>
        TextName(jobs[i]) && |labels[i]| <= 15 && StartsWith(jobs[i]["name"].s, labels[i])
    ensures ProgressLabels(jobs).None? <==> exists i :: 0 <= i < |jobs| && i < 8 && !TextName(jobs[i])
  {
    var shown: seq<Doc> := Take(jobs, ChartedJobs);
    assert forall i :: 0 <= i < |shown| ==> shown[i] == jobs[i];
    assert |ProgressBars(jobs)| == |shown|;
    forall i | 0 <= i < |shown|
      ensures ProgressBars(jobs)[i] == NumOrZero(Field(jobs[i], "progress"))
    {
      assert ProgressBars(jobs)[i] == Progress()(shown[i]);
    }
    if exists i :: 0 <= i < |jobs| && i < 8 && !TextName(jobs[i]) {
      var i :| 0 <= i < |jobs| && i < 8 && !TextName(jobs[i]);
      assert i < |shown| && !TextName(shown[i]);
      assert !(forall k :: 0 <= k < |shown| ==> TextName(shown[k]));
      assert ProgressLabels(jobs).None?;
    } else {
      assert forall k :: 0 <= k < |shown| ==> TextName(shown[k]);
      var labels := ProgressLabels(jobs).value;
      forall k | 0 <= k < |labels|
        ensures TextName(jobs[k]) && |labels[k]| <= 15 && StartsWith(jobs[k]["name"].s, labels[k])
      {
        assert labels[k] == Prefix(shown[k]["name"].s, 15);
      }
    }
  }

  /** Jobs after the eighth never change the chart. */
  lemma LaterJobsIgnored(jobs: seq<Doc>, more: seq<Doc>)
    requires |jobs| >= 8
    ensures ProgressBars(jobs + more) == ProgressBars(jobs)
    ensures ProgressLabels(jobs + more) == ProgressLabels(jobs)
  {
    assert Take(jobs + more, ChartedJobs) == Take(jobs, ChartedJobs);
  }

  /** The average is the mean rounded to the nearest whole number, halves
      up: within half a point of the exact mean. */
  lemma AverageIsRoundedMean(jobs: seq<Doc>)
    requires |jobs| > 0
    ensures var n := |jobs|; var total := SumOf(jobs, Progress()); var avg := AverageProgress(jobs);
      2 * total - n < 2 * n * avg <= 2 * total + n
  {
    var n := |jobs|;
    var a := 2 * SumOf(jobs, Progress()) + n;
    var q := a / (2 * n);
    var rem := a % (2 * n);
    assert a == 2 * n * q + rem && 0 <= rem < 2 * n;
  }

  /** With every job's progress between 0 and 100, so is the average; and
      without jobs it is 0. */
  lemma AverageInPercentRange(jobs: seq<Doc>)
    requires forall i :: 0 <= i < |jobs| ==> 0 <= Progress()(jobs[i]) <= 100
    ensures 0 <= AverageProgress(jobs) <= 100
    ensures |jobs| == 0 ==> AverageProgress(jobs) == 0
  {
    var n := |jobs|;
    if n > 0 {
      var total := SumOf(jobs, Progress());
      SumBounds(jobs, Progress(), 0, 100);
      AverageIsRoundedMean(jobs);
      var avg := AverageProgress(jobs);
      if avg < 0 {
        assert 2 * n * avg <= 2 * n * (-1) by { MulLeq(2 * n, avg, -1); }
      }
      if avg > 100 {
        assert 2 * n * 101 <= 2 * n * avg by { MulLeq(2 * n, 101, avg); }
      }
    }
  }

  lemma MulLeq(k: nat, x: int, y: int)
    requires x <= y
    ensures k * x <= k * y
  {
  }

  /** The four status counts are exact matches: they never add up to more
      than the tasks, a task with any other status is in none of them, and
      they account for every task when all statuses are among the four. */
  lemma StatusCountsMeaning(tasks: seq<Doc>)
    ensures var c := TaskStatusCounts(tasks);
      c.pending + c.inProgress + c.completed + c.blocked <= |tasks|
    ensures (forall i :: 0 <= i < |tasks| ==> KnownStatus(tasks[i])) ==>
      var c := TaskStatusCounts(tasks); c.pending + c.inProgress + c.completed + c.blocked == |tasks|
    ensures TaskStatusCounts(tasks).completed == TasksCompleted(tasks)
  {
    var p1, p2, p3, p4 := StatusIs("pending"), StatusIs("in-progress"), StatusIs("completed"), StatusIs("blocked");
    var p12 := (t: Doc) => p1(t) || p2(t);
    var p123 := (t: Doc) => p12(t) || p3(t);
    var p1234 := (t: Doc) => p123(t) || p4(t);
    CountDisjointUnion(tasks, p1, p2, p12);
    CountDisjointUnion(tasks, p12, p3, p123);
    CountDisjointUnion(tasks, p123, p4, p1234);
    if forall i :: 0 <= i < |tasks| ==> p1234(tasks[i]) {
      FilterAll(tasks, p1234);
    }
    FilterCongruent(tasks, p3, DashboardStats.IsCompleted());
  }

  /** The status is one of the four the chart counts. */
  predicate KnownStatus(t: Doc) {
    FieldIs(t, "status", "pending") || FieldIs(t, "status", "in-progress") ||
    FieldIs(t, "status", "completed") || FieldIs(t, "status", "blocked")
  }

  /** A task whose status is none of the four is counted nowhere. */
  lemma OtherStatusUncounted(tasks: seq<Doc>, t: Doc)
    requires !KnownStatus(t)
    ensures t !in Filter(tasks, StatusIs("pending")) && t !in Filter(tasks, StatusIs("in-progress"))
    ensures t !in Filter(tasks, StatusIs("completed")) && t !in Filter(tasks, StatusIs("blocked"))
  {
  }

  /** "High Priority Tasks" is the urgent tasks plus the high ones. */
  lemma HighPriorityAddsUp(tasks: seq<Doc>)
    ensures HighPriorityCount(tasks) ==
      Count(tasks, (t: Doc) => FieldIs(t, "priority", "urgent")) + Count(tasks, (t: Doc) => FieldIs(t, "priority", "high"))
  {
    var u := (t: Doc) => FieldIs(t, "priority", "urgent");
    var h := (t: Doc) => FieldIs(t, "priority", "high");
    var uh := (t: Doc) => u(t) || h(t);
    CountDisjointUnion(tasks, u, h, uh);
    FilterCongruent(tasks, uh, JobCard.HighOrUrgent());
  }
}
