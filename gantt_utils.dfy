/**
 * `src/lib/ganttUtils.ts`: the visible date range of a task list, the day and
 * month headers of a range, and the working-day count of a range.
 */
module GanttUtils {
  import opened Calendar
  import opened Types
  import opened Runs

  /** A range of days, both ends included. */
  datatype DateRange = DateRange(start: Day, end: Day)

  /** The earliest start or end date among the tasks. */
  function MinDate(ts: seq<PlanTask>): (m: Day)
    requires ts != []
    ensures forall i :: 0 <= i < |ts| ==> m <= ts[i].startDate && m <= ts[i].endDate
    ensures exists i :: 0 <= i < |ts| && (m == ts[i].startDate || m == ts[i].endDate)
  {
    var here := if ts[0].startDate <= ts[0].endDate then ts[0].startDate else ts[0].endDate;
    if |ts| == 1 then here
    else
      var rest := MinDate(ts[1..]);
      assert forall i :: 1 <= i < |ts| ==> ts[i] == ts[1..][i - 1];
      if here <= rest then here else rest
  }

  /** The latest start or end date among the tasks. */
  function MaxDate(ts: seq<PlanTask>): (m: Day)
    requires ts != []
    ensures forall i :: 0 <= i < |ts| ==> ts[i].startDate <= m && ts[i].endDate <= m
    ensures exists i :: 0 <= i < |ts| && (m == ts[i].startDate || m == ts[i].endDate)
  {
    var here := if ts[0].startDate >= ts[0].endDate then ts[0].startDate else ts[0].endDate;
    if |ts| == 1 then here
    else
      var rest := MaxDate(ts[1..]);
      assert forall i :: 1 <= i < |ts| ==> ts[i] == ts[1..][i - 1];
      if here >= rest then here else rest
  }

  /**
   * `getGanttTimelineDates`: the current month when there are no tasks,
   * otherwise from the first day of the earliest date's month to the last day
   * of the latest date's month. Only the given list is looked at, not the
   * subtasks of its elements.
   */
  function TimelineDates(ts: seq<PlanTask>, today: Day, cal: MonthCalendar): (r: DateRange)
    ensures ts == [] ==> r == DateRange(cal.startOfMonth(today), cal.endOfMonth(today))
    ensures ts != [] ==> r == DateRange(cal.startOfMonth(MinDate(ts)), cal.endOfMonth(MaxDate(ts)))
  {
    if ts == [] then DateRange(cal.startOfMonth(today), cal.endOfMonth(today))
    else DateRange(cal.startOfMonth(MinDate(ts)), cal.endOfMonth(MaxDate(ts)))
  }

  /** Every start and end date of the tasks lies inside the range. */
  lemma TimelineDatesCover(ts: seq<PlanTask>, today: Day, cal: MonthCalendar)
    requires Coherent(cal)
    ensures var r := TimelineDates(ts, today, cal);
            forall i :: 0 <= i < |ts| ==>
              r.start <= ts[i].startDate <= r.end && r.start <= ts[i].endDate <= r.end
    ensures ts == [] ==> var r := TimelineDates(ts, today, cal); r.start <= today <= r.end
  {
    if ts != [] {
      var lo, hi := MinDate(ts), MaxDate(ts);
      assert cal.startOfMonth(lo) <= lo;
      assert cal.startOfMonth(hi) <= hi <= cal.endOfMonth(hi);
    } else {
      assert cal.startOfMonth(today) <= today <= cal.endOfMonth(today);
    }
  }

  /**
   * `generateDateHeaders`: every day of the range and the month buckets,
   * extending the last bucket while the month stays the same.
   */
  method GenerateDateHeaders(start: Day, end: Day, cal: MonthCalendar) returns (days: seq<Day>, months: seq<Run>)
    ensures days == Days(start, end)
    ensures months == RunsOf(days, cal.startOfMonth)
  {
    days := Days(start, end);
    months := [];
    for i := 0 to |days|
      invariant months == RunsOf(days[..i], cal.startOfMonth)
    {
      var day := days[i];
      StepRuns(days, i, cal.startOfMonth);
      months := Bucket(months, day, cal.startOfMonth(day));
    }
    assert days[..|days|] == days;
  }

  /**
   * The month buckets of a range: none is empty, neighbours are different
   * months, each is named after a day of its month, and the counts add up to
   * the number of days.
   */
  lemma MonthBuckets(start: Day, end: Day, cal: MonthCalendar)
    ensures var days, months := Days(start, end), RunsOf(Days(start, end), cal.startOfMonth);
            WellFormed(months) && OpenedBy(months, days, cal.startOfMonth)
            && Expand(months) == Keys(days, cal.startOfMonth) && Total(months) == |days|
  {
    RunsOfWellFormed(Days(start, end), cal.startOfMonth);
    RunsOfExpand(Days(start, end), cal.startOfMonth);
    RunsTotal(Days(start, end), cal.startOfMonth);
  }

  /** The number of weekdays among the `n` days from `s` on. */
  function WorkingDaysFrom(s: Day, n: nat): (c: nat)
    ensures c <= n
  {
    if n == 0 then 0 else WorkingDaysFrom(s, n - 1) + (if IsWeekend(s + n - 1) then 0 else 1)
  }

  /** `calculateWorkingDays`: count the days of the range that are not Saturday or Sunday. */
  method CalculateWorkingDays(start: Day, end: Day) returns (count: nat)
    ensures count == WorkingDaysFrom(start, |Days(start, end)|)
    ensures count <= |Days(start, end)|
  {
    var days := Days(start, end);
    count := 0;
    for i := 0 to |days|
      invariant count == WorkingDaysFrom(start, i)
    {
      if !IsWeekend(days[i]) {
        count := count + 1;
      }
    }
  }

  /** One Monday-to-Sunday week holds five working days. */
  lemma OneWeek(m: Day)
    requires Weekday(m) == 0
    ensures WorkingDaysFrom(m, 7) == 5
  {
    var q := m / 7;
    assert m == 7 * q;
    MondayOffset(q, 1);
    MondayOffset(q, 2);
    MondayOffset(q, 3);
    MondayOffset(q, 4);
    MondayOffset(q, 5);
    MondayOffset(q, 6);
    assert WorkingDaysFrom(m, 1) == 1;
    assert WorkingDaysFrom(m, 2) == 2;
    assert WorkingDaysFrom(m, 3) == 3;
    assert WorkingDaysFrom(m, 4) == 4;
    assert WorkingDaysFrom(m, 5) == 5;
    assert WorkingDaysFrom(m, 6) == 5;
  }

  lemma MondayOffset(q: int, i: nat)
    requires i < 7
    ensures Weekday(7 * q + i) == i
  {
  }

  lemma {:induction false} WorkingDaysSplit(s: Day, a: nat, b: nat)
    ensures WorkingDaysFrom(s, a + b) == WorkingDaysFrom(s, a) + WorkingDaysFrom(s + a, b)
    decreases b
  {
    if b > 0 {
      WorkingDaysSplit(s, a, b - 1);
    }
  }

  /** `k` whole weeks starting on a Monday hold `5 * k` working days. */
  lemma {:induction false} FullWeeks(m: Day, k: nat)
    requires Weekday(m) == 0
    ensures WorkingDaysFrom(m, 7 * k) == 5 * k
    decreases k
  {
    if k > 0 {
      WorkingDaysSplit(m, 7 * (k - 1), 7);
      FullWeeks(m, k - 1);
      assert Weekday(m + 7 * (k - 1)) == 0 by {
        WeekdayShift(m, k - 1);
      }
      OneWeek(m + 7 * (k - 1));
    }
  }

  lemma {:induction false} WeekdayShift(m: Day, j: nat)
    ensures Weekday(m + 7 * j) == Weekday(m)
    decreases j
  {
    if j > 0 {
      WeekdayShift(m, j - 1);
      assert m + 7 * j == (m + 7 * (j - 1)) + 7;
    }
  }
}
