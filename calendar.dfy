/**
 * Calendar days as consecutive integers. Day 0 is a Monday, so weeks that start
 * on Monday (the `weekStartsOn: 1` option the plan uses throughout) begin at
 * multiples of 7 and Saturday/Sunday are the weekdays 5 and 6. Month and ISO
 * week numbering depend on the Gregorian calendar and are supplied as a
 * `MonthCalendar` value.
 */
module Calendar {

  type Day = int

  const DaysPerWeek: nat := 7
  const MsPerDay: nat := 86400000

  /** 0 = Monday … 6 = Sunday. */
  function Weekday(d: Day): (w: nat)
    ensures w < DaysPerWeek
  {
    d % DaysPerWeek
  }

  /** `isWeekend`: Saturday or Sunday. */
  predicate IsWeekend(d: Day) {
    Weekday(d) >= 5
  }

  /** `startOfWeek(d, { weekStartsOn: 1 })`: the Monday of `d`'s week. */
  function StartOfWeek(d: Day): (r: Day)
    ensures Weekday(r) == 0
    ensures r <= d < r + DaysPerWeek
  {
    d - Weekday(d)
  }

  /** `endOfWeek(d, { weekStartsOn: 1 })`: the Sunday of `d`'s week. */
  function EndOfWeek(d: Day): (r: Day)
    ensures Weekday(r) == 6
    ensures r - 6 <= d <= r
  {
    StartOfWeek(d) + 6
  }

  /** Days of one Monday-based week share their Monday. */
  lemma SameWeek(d: Day, e: Day)
    requires StartOfWeek(d) <= e < StartOfWeek(d) + DaysPerWeek
    ensures StartOfWeek(e) == StartOfWeek(d)
  {
  }

  /** `eachDayOfInterval({ start, end })`: every day from `s` to `e`, both included. */
  function Days(s: Day, e: Day): (r: seq<Day>)
    ensures |r| == if s <= e then e - s + 1 else 0
    ensures forall i :: 0 <= i < |r| ==> r[i] == s + i
  {
    if s <= e then seq(e - s + 1, i => s + i) else []
  }

  /**
   * What the plan needs from the Gregorian calendar: the first and last day of
   * the month containing a day, and the ISO week number of a day.
   */
  datatype MonthCalendar = MonthCalendar(startOfMonth: Day -> Day, endOfMonth: Day -> Day, isoWeek: Day -> nat)

  /** Every day lies within its own month. */
  ghost predicate Coherent(cal: MonthCalendar) {
    forall d: Day {:trigger cal.startOfMonth(d)} :: cal.startOfMonth(d) <= d <= cal.endOfMonth(d)
  }
}
