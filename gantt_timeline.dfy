/**
 * `src/components/plan/GanttTimeline.tsx`: the bar chart of the plan. Every
 * node of the task tree gets one bar, in pre-order, on a grid of 24-pixel day
 * columns and 28-pixel rows spanning whole Monday-to-Sunday weeks. Dragging a
 * bar or one of its handles yields new dates for the task.
 */
module GanttTimeline {
  import opened Wrappers
  import opened Calendar
  import opened Types
  import opened PlanTree
  import opened GanttUtils

  const DayWidth: int := 24
  const RowHeight: int := 28

  /* ---------------- flattening ---------------- */

  lemma FlattenStep(cs: seq<PlanTask>, i: nat)
    requires i < |cs|
    ensures Flatten(cs[..i + 1]) == Flatten(cs[..i]) + FlattenNode(cs[i])
  {
    assert cs[..i + 1] == cs[..i] + [cs[i]];
    FlattenConcat(cs[..i], [cs[i]]);
    FlattenSingle(cs[i]);
  }

  /** `walk`: push the node, then walk each of its children in order. */
  method Walk(t: PlanTask, out: seq<PlanTask>) returns (res: seq<PlanTask>)
    ensures res == out + FlattenNode(t)
    decreases t
  {
    res := out + [t];
    match t.subTasks {
      case NoSubTasks =>
      case SubTasks(cs) =>
        for i := 0 to |cs|
          invariant res == out + [t] + Flatten(cs[..i])
        {
          assert cs[i] in cs;
          res := Walk(cs[i], res);
          FlattenStep(cs, i);
        }
        assert cs[..|cs|] == cs;
    }
  }

  /**
   * `flattenTasks`: every node in depth-first pre-order, each parent before its
   * descendants and siblings in order, one entry per node.
   */
  method FlattenTasks(ts: seq<PlanTask>) returns (out: seq<PlanTask>)
    ensures out == Flatten(ts)
    ensures |out| == Size(ts)
  {
    out := [];
    for i := 0 to |ts|
      invariant out == Flatten(ts[..i])
    {
      out := Walk(ts[i], out);
      FlattenStep(ts, i);
    }
    assert ts[..|ts|] == ts;
    FlattenSize(ts);
  }

  /* ---------------- window and geometry ---------------- */

  /** The grid window: from the Monday on or before `start` to the Sunday on or after `end`. */
  function Window(start: Day, end: Day): (r: DateRange)
    ensures Weekday(r.start) == 0 && r.start <= start < r.start + 7
    ensures Weekday(r.end) == 6 && r.end - 6 <= end <= r.end
  {
    DateRange(StartOfWeek(start), EndOfWeek(end))
  }

  /** A window over a non-empty range holds whole weeks. */
  lemma WindowWholeWeeks(start: Day, end: Day)
    requires start <= end
    ensures var w := Window(start, end); |Days(w.start, w.end)| > 0 && |Days(w.start, w.end)| % 7 == 0
  {
    var w := Window(start, end);
    assert (w.end - w.start + 1) % 7 == 0;
  }

  /** A task bar in pixels. */
  datatype Bar = Bar(id: string, left: int, width: int, top: int)

  /** Left edge: the task's start column. */
  function BarLeft(t: PlanTask, gridStart: Day): int {
    (t.startDate - gridStart) * DayWidth
  }

  /** Width: one column per day of the task, less 2 pixels of gap. */
  function BarWidth(t: PlanTask): int {
    (t.endDate - t.startDate + 1) * DayWidth - 2
  }

  /** Top edge of the bar on row `index`. */
  function BarTop(index: nat): int {
    index * RowHeight + 6
  }

  function BarOf(t: PlanTask, gridStart: Day, index: nat): Bar {
    Bar(t.id, BarLeft(t, gridStart), BarWidth(t), BarTop(index))
  }

  /**
   * A bar of a task inside the window starts at the left edge of its start
   * day's column and stops 2 pixels short of the right edge of its end day's
   * column; consecutive rows are one row height apart.
   */
  lemma BarSpansItsDays(t: PlanTask, w: DateRange, index: nat)
    requires w.start <= t.startDate <= t.endDate <= w.end
    ensures var days, b := Days(w.start, w.end), BarOf(t, w.start, index);
            exists j, k :: 0 <= j <= k < |days| && days[j] == t.startDate && days[k] == t.endDate
              && b.left == j * DayWidth && b.left + b.width + 2 == (k + 1) * DayWidth
    ensures BarTop(index + 1) == BarTop(index) + RowHeight
  {
    var days := Days(w.start, w.end);
    var j, k := t.startDate - w.start, t.endDate - w.start;
    assert days[j] == t.startDate && days[k] == t.endDate;
  }

  /* ---------------- dragging ---------------- */

  /** What a drag carries: the task and the kind of handle (`move`, `resize-left`, `resize-right`). */
  datatype DragData = DragData(task: Option<PlanTask>, kind: Option<string>)

  /** The `onTaskUpdate` call a drag produces. */
  datatype DateUpdate = DateUpdate(id: string, start: Day, end: Day)

  /** `Math.round(dx / 24)` on a whole-pixel offset: the nearest day, halves rounded up. */
  function RoundDays(dx: int): (d: int)
    ensures d * DayWidth - 12 <= dx < d * DayWidth + 12
  {
    (dx + 12) / DayWidth
  }

  function Min(a: int, b: int): int {
    if a <= b then a else b
  }

  function Max(a: int, b: int): int {
    if a >= b then a else b
  }

  /** `handleDragEnd`: the new dates of a dragged task, or no update. */
  method HandleDragEnd(data: DragData, dx: int) returns (u: Option<DateUpdate>)
    ensures u.None? <==> data.task.None? || !Truthy(data.kind) || RoundDays(dx) == 0
    ensures u.Some? ==> u.value.id == data.task.value.id
    ensures u.Some? && data.kind.value == "move" ==>
      u.value.start == data.task.value.startDate + RoundDays(dx)
      && u.value.end - u.value.start == data.task.value.endDate - data.task.value.startDate
    ensures u.Some? && data.kind.value == "resize-right" ==>
      u.value.start == data.task.value.startDate
      && u.value.end == Max(data.task.value.endDate + RoundDays(dx), data.task.value.startDate)
    ensures u.Some? && data.kind.value == "resize-left" ==>
      u.value.end == data.task.value.endDate
      && u.value.start == Min(data.task.value.startDate + RoundDays(dx), data.task.value.endDate)
    ensures u.Some? && data.kind.value !in {"move", "resize-right", "resize-left"} ==>
      u.value.start == data.task.value.startDate && u.value.end == data.task.value.endDate
    ensures u.Some? && data.kind.value != "move" && data.task.value.startDate <= data.task.value.endDate ==>
      u.value.start <= u.value.end
  {
    if data.task.None? || data.kind.None? || data.kind.value == "" {
      return None;
    }
    var task, kind := data.task.value, data.kind.value;
    var daysDragged := RoundDays(dx);
    if daysDragged == 0 {
      return None;
    }
    var newStart, newEnd := task.startDate, task.endDate;
    if kind == "move" {
      var duration := task.endDate - task.startDate;
      newStart := task.startDate + daysDragged;
      newEnd := newStart + duration;
    } else if kind == "resize-right" {
      newEnd := task.endDate + daysDragged;
      if newEnd - newStart < 0 {
        newEnd := newStart;
      }
    } else if kind == "resize-left" {
      newStart := task.startDate + daysDragged;
      if newEnd - newStart < 0 {
        newStart := newEnd;
      }
    }
    u := Some(DateUpdate(task.id, newStart, newEnd));
  }

  /* ---------------- the chart ---------------- */

  /** Left position of the today line, when today falls inside the `dayCount` days from `windowStart`. */
  function TodayLine(today: Day, windowStart: Day, dayCount: nat): Option<int> {
    var index := today - windowStart;
    if 0 <= index < dayCount then Some(index * DayWidth + DayWidth / 2) else None
  }

  /** The today line is drawn exactly when today is one of the window's days, in the middle of its column. */
  lemma TodayLineInTodaysColumn(today: Day, w: DateRange)
    ensures var days := Days(w.start, w.end);
            TodayLine(today, w.start, |days|).Some? <==> today in days
    ensures var days := Days(w.start, w.end);
            TodayLine(today, w.start, |days|).Some? ==>
              var x := TodayLine(today, w.start, |days|).value;
              x / DayWidth < |days| && days[x / DayWidth] == today && x % DayWidth == 12
  {
    var days := Days(w.start, w.end);
    if 0 <= today - w.start < |days| {
      assert days[today - w.start] == today;
    }
    if today in days {
      var i :| 0 <= i < |days| && days[i] == today;
      assert i == today - w.start;
    }
  }

  /** What the timeline renders: a placeholder for an empty plan, or the chart. */
  datatype Timeline =
    | NoTasks
    | Chart(days: seq<Day>, width: int, height: int, todayLeft: Option<int>, bars: seq<Bar>)

  /**
   * The timeline of a plan shown over `start`..`end` on day `today`: one bar per
   * node of the tree, collapsed or not, in pre-order.
   */
  function TimelineOf(tasks: seq<PlanTask>, start: Day, end: Day, today: Day): (v: Timeline)
    ensures tasks == [] <==> v.NoTasks?
    ensures v.Chart? ==> |v.bars| == Size(tasks) && v.width == |v.days| * DayWidth
    ensures v.Chart? ==> v.height >= 200 && v.height >= |v.bars| * RowHeight
    ensures v.Chart? ==> v.height == 200 || v.height == |v.bars| * RowHeight
  {
    if tasks == [] then NoTasks
    else
      var w := Window(start, end);
      var days := Days(w.start, w.end);
      var flat := Flatten(tasks);
      FlattenSize(tasks);
      var bars := seq(|flat|, i requires 0 <= i < |flat| => BarOf(flat[i], w.start, i));
      Chart(days, |days| * DayWidth, Max(|flat| * RowHeight, 200), TodayLine(today, w.start, |days|), bars)
  }

  /** The bars follow the pre-order of the tree: row `i` is the `i`-th node of the flattening. */
  lemma TimelineRows(tasks: seq<PlanTask>, start: Day, end: Day, today: Day)
    requires tasks != []
    ensures var v := TimelineOf(tasks, start, end, today);
            forall i :: 0 <= i < |v.bars| ==>
              v.bars[i].id == Flatten(tasks)[i].id && v.bars[i].top == BarTop(i)
  {
  }
}
