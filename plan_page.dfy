/**
 * `src/pages/PlanPage.tsx`: the page that joins the grid and the timeline. It
 * owns the width of the grid pane (dragged with a handle and kept between the
 * sum of the grid's columns and 1600 px), keeps the two panes' vertical scroll
 * positions in step, turns grid and timeline events into requests, and picks
 * the displayed date range and the header buckets above the timeline.
 */
module PlanPage {
  import opened Wrappers
  import opened Calendar
  import opened Types
  import opened Strings
  import opened Runs
  import opened GanttUtils
  import opened GanttGrid
  import GanttTimeline
  import UserRoutes

  /* ---------------- grid width ---------------- */

  /** The widths of the grid's columns plus about 12 px of borders. */
  const GridBaseWidth: int := 48 + 80 + 192 + 128 + 96 + 64 + 80 + 64 + 64 + 48 + 48 + 40 + 12
  /** The grid is never narrower than its columns. */
  const GridMin: int := GridBaseWidth
  const GridMax: int := 1600
  const InitialGridWidth: int := 1160

  /** `Math.min(Math.max(w, GRID_MIN), GRID_MAX)`. */
  function Clamp(w: int): (r: int)
    ensures GridMin <= r <= GridMax
    ensures GridMin <= w <= GridMax ==> r == w
    ensures w < GridMin ==> r == GridMin
    ensures w > GridMax ==> r == GridMax
  {
    var lo := if w > GridMin then w else GridMin;
    if lo < GridMax then lo else GridMax
  }

  /** Moving the pointer further left never makes the grid narrower. */
  lemma ClampMonotone(a: int, b: int)
    requires a <= b
    ensures Clamp(a) <= Clamp(b)
  {
  }

  /**
   * The resize handle between the panes. The width is computed from where the
   * drag started, so the grid follows the pointer and dragging back to the
   * starting point restores the starting width.
   */
  class SplitPane {
    var isDragging: bool
    var startX: int
    var startWidth: int
    var gridWidth: int

    predicate Valid()
      reads this
    {
      GridMin <= gridWidth <= GridMax
    }

    constructor ()
      ensures Valid()
      ensures !isDragging && startX == 0 && startWidth == InitialGridWidth && gridWidth == InitialGridWidth
    {
      isDragging := false;
      startX := 0;
      startWidth := InitialGridWidth;
      gridWidth := InitialGridWidth;
    }

    /** `onResizerMouseDown`: remember the pointer and the width. */
    method MouseDown(clientX: int)
      modifies this
      ensures isDragging && startX == clientX && startWidth == old(gridWidth) && gridWidth == old(gridWidth)
    {
      isDragging := true;
      startX := clientX;
      startWidth := gridWidth;
    }

    /** `handleMouseMove`: while dragging, the start width plus how far the pointer went left, clamped. */
    method MouseMove(clientX: int)
      modifies this
      requires Valid()
      ensures Valid()
      ensures old(isDragging) ==> gridWidth == Clamp(startWidth + startX - clientX)
      ensures !old(isDragging) ==> gridWidth == old(gridWidth)
      ensures isDragging == old(isDragging) && startX == old(startX) && startWidth == old(startWidth)
    {
      if !isDragging {
        return;
      }
      var delta := startX - clientX;
      gridWidth := Clamp(startWidth + delta);
    }

    /** `handleMouseUp`: the drag ends and the width stays. */
    method MouseUp()
      modifies this
      ensures !isDragging
      ensures startX == old(startX) && startWidth == old(startWidth) && gridWidth == old(gridWidth)
    {
      isDragging := false;
    }

    /**
     * Pressing the handle at `x`, dragging to `y` and coming back to `x`
     * gives the width the pane had when the drag started: the width follows
     * the pointer's distance from the press point, not the path it took.
     */
    method DragBackRestores(x: int, y: int)
      modifies this
      requires Valid()
      ensures Valid()
      ensures isDragging && gridWidth == old(gridWidth)
    {
      MouseDown(x);
      MouseMove(y);
      MouseMove(x);
    }
  }

  /* ---------------- scroll synchronisation ---------------- */

  /**
   * The effect that mirrors one pane's `scrollTop` onto the other. A flag,
   * cleared on the next animation frame, keeps the echo of a mirrored scroll
   * from bouncing back. The panes' presence is fixed when the effect runs.
   */
  class ScrollSync {
    var gridTop: int
    var timelineTop: int
    var isSyncing: bool
    const hasGrid: bool
    const hasTimeline: bool

    constructor (hasGrid: bool, hasTimeline: bool, gridTop: int, timelineTop: int)
      ensures this.hasGrid == hasGrid && this.hasTimeline == hasTimeline
      ensures this.gridTop == gridTop && this.timelineTop == timelineTop && !isSyncing
    {
      this.hasGrid := hasGrid;
      this.hasTimeline := hasTimeline;
      this.gridTop := gridTop;
      this.timelineTop := timelineTop;
      isSyncing := false;
    }

    /**
     * `handleGridScroll`: copy the grid's position to the timeline unless a
     * copy is in flight. The plan page never attaches it (see `UserScrollsGrid`).
     */
    method OnGridScroll()
      modifies this
      ensures hasTimeline && !old(isSyncing) ==> isSyncing && timelineTop == gridTop
      ensures !(hasTimeline && !old(isSyncing)) ==> isSyncing == old(isSyncing) && timelineTop == old(timelineTop)
      ensures gridTop == old(gridTop)
    {
      if hasTimeline && !isSyncing {
        isSyncing := true;
        timelineTop := gridTop;
      }
    }

    /** `handleTimelineScroll`: copy the timeline's position to the grid unless a copy is in flight. */
    method OnTimelineScroll()
      modifies this
      ensures hasGrid && !old(isSyncing) ==> isSyncing && gridTop == timelineTop
      ensures !(hasGrid && !old(isSyncing)) ==> isSyncing == old(isSyncing) && gridTop == old(gridTop)
      ensures timelineTop == old(timelineTop)
    {
      if hasGrid && !isSyncing {
        isSyncing := true;
        gridTop := timelineTop;
      }
    }

    /** The animation-frame callback both handlers schedule. */
    method FrameElapsed()
      modifies this
      ensures !isSyncing && gridTop == old(gridTop) && timelineTop == old(timelineTop)
    {
      isSyncing := false;
    }

    /**
     * The user scrolls the grid to `top`: the timeline follows, and the scroll
     * event the copy raises on the timeline is swallowed by the flag instead of
     * being copied back. On the plan page this path is never taken: the grid
     * renders no `.overflow-y-auto` element, so the page never attaches
     * `handleGridScroll`, and only the timeline-to-grid copy runs.
     */
    method UserScrollsGrid(top: int)
      modifies this
      requires !isSyncing && hasTimeline
      ensures gridTop == top && timelineTop == top && isSyncing
    {
      gridTop := top;
      OnGridScroll();
      OnTimelineScroll();
    }
  }

  /* ---------------- requests ---------------- */

  /** `tasks.find(t => t.id === id)`: among the root tasks only, the first with the id. */
  function FindRoot(ts: seq<PlanTask>, id: string): (r: Option<PlanTask>)
    ensures r.Some? <==> exists i :: 0 <= i < |ts| && ts[i].id == id
    ensures r.Some? ==> exists i :: 0 <= i < |ts| && ts[i] == r.value && ts[i].id == id &&
                                    forall j :: 0 <= j < i ==> ts[j].id != id
  {
    if ts == [] then None
    else if ts[0].id == id then Some(ts[0])
    else
      var r := FindRoot(ts[1..], id);
      assert forall i :: 1 <= i < |ts| ==> ts[i] == ts[1..][i - 1];
      r
  }

  /**
   * `handleTaskTimelineUpdate`: a drag on the timeline becomes a dates patch,
   * but only for a task found among the loaded root tasks.
   */
  function TimelineUpdate(tasks: Option<seq<PlanTask>>, id: string, start: Day, end: Day)
    : (p: Option<UserRoutes.PlanTaskPatch>)
    ensures p.Some? <==> tasks.Some? && exists i :: 0 <= i < |tasks.value| && tasks.value[i].id == id
    ensures p.Some? ==> p == Some(UserRoutes.DatesPatch(id, start, end))
  {
    match tasks
    case None => None
    case Some(ts) => if FindRoot(ts, id).Some? then Some(UserRoutes.DatesPatch(id, start, end)) else None
  }

  /**
   * The timeline draws and lets the user drag every node of the tree, but a
   * drag on a subtask is dropped here, because only root tasks are searched.
   */
  lemma SubtaskDragDropped(ts: seq<PlanTask>, id: string, start: Day, end: Day, t: PlanTask, i: nat)
    requires i < |ts| && t in Children(ts[i]) && t.id == id
    requires forall j :: 0 <= j < |ts| ==> ts[j].id != id
    ensures t in PlanTree.Flatten(ts)
    ensures TimelineUpdate(Some(ts), id, start, end).None?
  {
    PlanTree.FlattenNodeUnfold(ts[i]);
    PlanTree.FlattenSingle(ts[i]);
    var k :| 0 <= k < |Children(ts[i])| && Children(ts[i])[k] == t;
    PlanTree.FlattenNodeUnfold(t);
    ChildInFlatten(Children(ts[i]), k);
    FlattenMember(ts, i);
  }

  lemma {:induction false} ChildInFlatten(cs: seq<PlanTask>, k: nat)
    requires k < |cs|
    ensures cs[k] in PlanTree.Flatten(cs)
    decreases cs
  {
    PlanTree.FlattenNodeUnfold(cs[0]);
    if k > 0 {
      ChildInFlatten(cs[1..], k - 1);
    }
  }

  lemma {:induction false} FlattenMember(ts: seq<PlanTask>, i: nat)
    requires i < |ts|
    ensures forall x :: x in PlanTree.FlattenNode(ts[i]) ==> x in PlanTree.Flatten(ts)
    decreases ts
  {
    if i > 0 {
      FlattenMember(ts[1..], i - 1);
    }
  }

  /** `handleSaveTask`: the whole edited task is sent, children included when it has the key. */
  function SavePatch(t: PlanTask): UserRoutes.PlanTaskPatch {
    UserRoutes.PlanTaskPatch(
      Some(t.id), Some(t.wbs), Some(t.projectCase), Some(t.name), Some(t.description), Some(t.assignees),
      Some(t.priority), Some(t.status), Some(t.startDate), Some(t.endDate), Some(t.estHours), Some(t.usedHours),
      t.timesheetState, if t.subTasks.SubTasks? then Some(t.subTasks.tasks) else None)
  }

  /**
   * Saving replaces the stored node by the edited one, except that a key the
   * edited task lacks (no timesheet state, no `subTasks`) keeps the stored value.
   */
  lemma SaveReplaces(stored: PlanTask, t: PlanTask)
    ensures UserRoutes.Assign(stored, SavePatch(t))
         == t.(timesheetState := if t.timesheetState.Some? then t.timesheetState else stored.timesheetState,
               subTasks := if t.subTasks.SubTasks? then t.subTasks else stored.subTasks)
  {
  }

  /**
   * The label `handleAddTask` stores on a new task: under a parent, the
   * parent's stored label and the next child number, where the parent is only
   * looked up among the root tasks and a parent not found there prints as
   * "undefined" with no children; without a parent, the next root number.
   */
  function NewTaskWbs(tasks: Option<seq<PlanTask>>, parentId: Option<string>): string {
    var roots := match tasks case None => [] case Some(ts) => ts;
    if Truthy(parentId) then
      match FindRoot(roots, parentId.value)
      case None => "undefined" + "." + NatToString(1)
      case Some(p) => p.wbs + "." + NatToString(|Children(p)| + 1)
    else NatToString(|roots| + 1)
  }

  /** The draft `handleAddTask` posts: fixed defaults, one day from today, eight hours. */
  function NewTaskDraft(wbs: string, today: Day): (t: PlanTask)
    ensures t.wbs == wbs && t.startDate == today && t.endDate == today + 1
    ensures t.estHours == 8 && t.usedHours == 0 && t.status == Backlog && t.priority == Medium
    ensures t.timesheetState.None? && t.subTasks == NoSubTasks
  {
    PlanTask("", wbs, "PRJ-2024", "New Task", "A new task description.", ["Unassigned"], Medium, Backlog,
             today, today + 1, 8, 0, None, NoSubTasks)
  }

  /** The request `handleAddTask` sends. */
  datatype AddRequest = AddRequest(parentId: Option<string>, task: PlanTask)

  function HandleAddTask(tasks: Option<seq<PlanTask>>, parentId: Option<string>, today: Day): (r: AddRequest)
    ensures r.parentId == parentId
    ensures r.task == NewTaskDraft(NewTaskWbs(tasks, parentId), today)
  {
    AddRequest(parentId, NewTaskDraft(NewTaskWbs(tasks, parentId), today))
  }

  /**
   * A new root task stores the label the grid then shows for it: the store
   * appends it after the existing roots, and the grid numbers roots by position.
   */
  lemma NewRootRowShowsItsWbs(ts: seq<PlanTask>, today: Day, now: nat, collapsed: set<string>)
    ensures var n := UserRoutes.NewPlanTask(HandleAddTask(Some(ts), None, today).task, now);
            var before, rows := GridRows(ts, collapsed), GridRows(ts + [n], collapsed);
            |before| < |rows| && rows[|before|].task == n && rows[|before|].wbs == n.wbs && rows[|before|].level == 0
  {
    var n := UserRoutes.NewPlanTask(HandleAddTask(Some(ts), None, today).task, now);
    RowsSnoc(ts, n, None, 0, 0, collapsed);
  }

  /**
   * Under a root parent the stored label extends the parent's stored label with
   * the new child's position, which is the grid's label for it when the parent's
   * stored label is its position.
   */
  lemma NewChildWbs(ts: seq<PlanTask>, i: nat, parentId: string)
    requires i < |ts| && ts[i].id == parentId && parentId != ""
    requires forall j :: 0 <= j < i ==> ts[j].id != parentId
    ensures NewTaskWbs(Some(ts), Some(parentId)) == Label(Some(ts[i].wbs), |Children(ts[i])| + 1)
  {
    var r := FindRoot(ts, parentId);
    var k :| 0 <= k < |ts| && ts[k] == r.value && ts[k].id == parentId && forall j :: 0 <= j < k ==> ts[j].id != parentId;
    assert k == i;
  }

  /** A subtask as parent is not found among the roots, so its new child is labelled "undefined.1". */
  lemma SubtaskParentWbs(ts: seq<PlanTask>, parentId: string)
    requires parentId != ""
    requires forall j :: 0 <= j < |ts| ==> ts[j].id != parentId
    ensures NewTaskWbs(Some(ts), Some(parentId)) == "undefined.1"
  {
  }

  /* ---------------- displayed range ---------------- */

  /** The toggle above the chart. */
  datatype ViewFilter = Weekly | Monthly | All

  /**
   * The displayed range: today alone before the plan is loaded, today's week
   * (Monday to Sunday) or month, or the whole plan widened to whole weeks.
   */
  function DisplayRange(tasks: Option<seq<PlanTask>>, filter: ViewFilter, today: Day, cal: MonthCalendar): DateRange {
    match tasks
    case None => DateRange(today, today)
    case Some(ts) =>
      match filter
      case Weekly => DateRange(StartOfWeek(today), EndOfWeek(today))
      case Monthly => DateRange(cal.startOfMonth(today), cal.endOfMonth(today))
      case All =>
        var r := TimelineDates(ts, today, cal);
        GanttTimeline.Window(r.start, r.end)
  }

  /** The weekly and monthly views contain today; the weekly one is exactly today's Monday-to-Sunday week. */
  lemma DisplayRangeToday(ts: seq<PlanTask>, filter: ViewFilter, today: Day, cal: MonthCalendar)
    requires Coherent(cal) && filter != All
    ensures var r := DisplayRange(Some(ts), filter, today, cal); r.start <= today <= r.end
    ensures filter == Weekly ==>
              var r := DisplayRange(Some(ts), filter, today, cal);
              Weekday(r.start) == 0 && r.end == r.start + 6
  {
    if filter == Monthly {
      assert cal.startOfMonth(today) <= today <= cal.endOfMonth(today);
    }
  }

  /**
   * The "all" view runs from a Monday to a Sunday and contains every date of
   * every root task (and today when there are none).
   */
  lemma DisplayRangeCoversRoots(ts: seq<PlanTask>, today: Day, cal: MonthCalendar)
    requires Coherent(cal)
    ensures var r := DisplayRange(Some(ts), All, today, cal);
            Weekday(r.start) == 0 && Weekday(r.end) == 6 &&
            forall i :: 0 <= i < |ts| ==> r.start <= ts[i].startDate <= r.end && r.start <= ts[i].endDate <= r.end
    ensures ts == [] ==> var r := DisplayRange(Some(ts), All, today, cal); r.start <= today <= r.end
  {
    TimelineDatesCover(ts, today, cal);
  }

  /** Only the root tasks' own dates matter: the dates of subtasks never widen the range. */
  lemma DisplayRangeIgnoresSubtasks(ts: seq<PlanTask>, us: seq<PlanTask>, filter: ViewFilter, today: Day,
                                    cal: MonthCalendar)
    requires SameRootDates(ts, us)
    ensures DisplayRange(Some(ts), filter, today, cal) == DisplayRange(Some(us), filter, today, cal)
  {
    if ts != [] {
      SameMin(ts, us);
      SameMax(ts, us);
    }
  }

  /** The two plans' root tasks carry the same dates, position by position. */
  predicate SameRootDates(ts: seq<PlanTask>, us: seq<PlanTask>) {
    |ts| == |us| && forall i :: 0 <= i < |ts| ==> ts[i].startDate == us[i].startDate && ts[i].endDate == us[i].endDate
  }

  lemma SameRootDatesTail(ts: seq<PlanTask>, us: seq<PlanTask>)
    requires ts != [] && SameRootDates(ts, us)
    ensures SameRootDates(ts[1..], us[1..])
  {
    forall i | 0 <= i < |ts| - 1
      ensures ts[1..][i].startDate == us[1..][i].startDate && ts[1..][i].endDate == us[1..][i].endDate
    {
      assert ts[1..][i] == ts[i + 1] && us[1..][i] == us[i + 1];
    }
  }

  lemma {:induction false} SameMin(ts: seq<PlanTask>, us: seq<PlanTask>)
    requires ts != [] && SameRootDates(ts, us)
    ensures MinDate(ts) == MinDate(us)
    decreases |ts|
  {
    if |ts| > 1 {
      SameRootDatesTail(ts, us);
      SameMin(ts[1..], us[1..]);
    }
  }

  lemma {:induction false} SameMax(ts: seq<PlanTask>, us: seq<PlanTask>)
    requires ts != [] && SameRootDates(ts, us)
    ensures MaxDate(ts) == MaxDate(us)
    decreases |ts|
  {
    if |ts| > 1 {
      SameRootDatesTail(ts, us);
      SameMax(ts[1..], us[1..]);
    }
  }

  /* ---------------- header buckets ---------------- */

  /** What the timeline header shows: the days, month and week buckets, and the chart width. */
  datatype Header = Header(days: seq<Day>, months: seq<Run>, weeks: seq<Run>, weekNumbers: seq<nat>, widthPx: int)

  /** The header's days: the displayed range widened to whole Monday-to-Sunday weeks. */
  function HeaderDays(displayStart: Day, displayEnd: Day): seq<Day> {
    Days(StartOfWeek(displayStart), EndOfWeek(displayEnd))
  }

  /**
   * `timelineHeaderData`: nothing before the plan is loaded; otherwise one pass
   * over the days opens a month bucket when the first-of-month changes and a
   * week bucket when the Monday changes, numbering each week by the ISO week of
   * its first day.
   */
  method TimelineHeaderData(tasks: Option<seq<PlanTask>>, displayStart: Day, displayEnd: Day, cal: MonthCalendar)
    returns (h: Option<Header>)
    ensures tasks.None? <==> h.None?
    ensures h.Some? ==> h.value.days == HeaderDays(displayStart, displayEnd)
    ensures h.Some? ==> h.value.months == RunsOf(h.value.days, cal.startOfMonth)
    ensures h.Some? ==> h.value.weeks == RunsOf(h.value.days, StartOfWeek)
    ensures h.Some? ==> Numbered(h.value.weeks, h.value.weekNumbers, cal)
    ensures h.Some? ==> h.value.widthPx == |h.value.days| * GanttTimeline.DayWidth
  {
    if tasks.None? {
      return None;
    }
    var days, _ := GenerateDateHeaders(StartOfWeek(displayStart), EndOfWeek(displayEnd), cal);
    var months: seq<Run> := [];
    var weeks: seq<Run> := [];
    var weekNumbers: seq<nat> := [];
    for i := 0 to |days|
      invariant months == RunsOf(days[..i], cal.startOfMonth)
      invariant weeks == RunsOf(days[..i], StartOfWeek)
      invariant Numbered(weeks, weekNumbers, cal)
    {
      var day := days[i];
      StepRuns(days, i, cal.startOfMonth);
      months := Bucket(months, day, cal.startOfMonth(day));
      StepRuns(days, i, StartOfWeek);
      weeks, weekNumbers := BucketWeek(weeks, weekNumbers, day, cal);
    }
    assert days[..|days|] == days;
    h := Some(Header(days, months, weeks, weekNumbers, |days| * GanttTimeline.DayWidth));
  }

  /** Numbers each week bucket by the ISO week of the day that opened it. */
  predicate Numbered(weeks: seq<Run>, weekNumbers: seq<nat>, cal: MonthCalendar) {
    |weekNumbers| == |weeks| && forall j :: 0 <= j < |weeks| ==> weekNumbers[j] == cal.isoWeek(weeks[j].first)
  }

  /** The week half of one step of the header loop: a new bucket also gets its week number. */
  method BucketWeek(weeks: seq<Run>, weekNumbers: seq<nat>, day: Day, cal: MonthCalendar)
    returns (weeks': seq<Run>, weekNumbers': seq<nat>)
    requires Numbered(weeks, weekNumbers, cal)
    ensures weeks' == Push(weeks, day, StartOfWeek(day))
    ensures Numbered(weeks', weekNumbers', cal)
  {
    var newWeek := weeks == [] || weeks[|weeks| - 1].key != StartOfWeek(day);
    weeks' := Bucket(weeks, day, StartOfWeek(day));
    weekNumbers' := if newWeek then weekNumbers + [cal.isoWeek(day)] else weekNumbers;
  }

  /** The seven days from a Monday share that Monday as their week key, so they make one bucket. */
  lemma OneWeekRun(m: Day)
    requires Weekday(m) == 0
    ensures RunsOf(Days(m, m + 6), StartOfWeek) == [Run(m, m, 7)]
  {
    var week := Days(m, m + 6);
    forall i | 0 <= i < |week|
      ensures StartOfWeek(week[i]) == m
    {
      SameWeek(m, week[i]);
    }
    RunsUniform(week, StartOfWeek, m);
  }

  /** A run of days splits at any day inside it. */
  lemma DaysSplit(a: Day, b: Day, c: Day)
    requires a < b <= c
    ensures Days(a, c) == Days(a, b - 1) + Days(b, c)
  {
  }

  /** `k` whole weeks from a Monday make `k` week buckets of seven days, each keyed and opened by its Monday. */
  lemma {:induction false} WeekRuns(m: Day, k: nat)
    requires Weekday(m) == 0 && k > 0
    ensures var ws := RunsOf(Days(m, m + 7 * k - 1), StartOfWeek);
            |ws| == k && forall j :: 0 <= j < k ==> ws[j] == Run(m + 7 * j, m + 7 * j, 7)
    decreases k
  {
    var last := m + 7 * (k - 1);
    var end := m + 7 * k - 1;
    assert end == last + 6;
    WeekdayShift(m, k - 1);
    OneWeekRun(last);
    if k > 1 {
      WeekRuns(m, k - 1);
      var before := Days(m, last - 1);
      var week := Days(last, end);
      assert m + 7 * (k - 1) - 1 == last - 1;
      DaysSplit(m, last, end);
      assert StartOfWeek(before[|before| - 1]) != StartOfWeek(week[0]) by {
        assert before[|before| - 1] == last - 1 && week[0] == last;
      }
      RunsConcat(before, week, StartOfWeek);
    }
  }

  /** The widened range holds a whole number of weeks, at least one. */
  lemma WeeksInRange(displayStart: Day, displayEnd: Day) returns (k: nat)
    requires displayStart <= displayEnd
    ensures k > 0 && EndOfWeek(displayEnd) == StartOfWeek(displayStart) + 7 * k - 1
  {
    var a, b := StartOfWeek(displayStart), StartOfWeek(displayEnd);
    assert a % 7 == 0 && b % 7 == 0;
    assert a == 7 * (a / 7) && b == 7 * (b / 7);
    k := b / 7 - a / 7 + 1;
  }

  /**
   * The header's week row: every bucket is a whole week keyed and opened by its
   * Monday, there is one per seven days, and the week row, the month row and
   * the day row all span the same width.
   */
  lemma HeaderWeeks(displayStart: Day, displayEnd: Day, cal: MonthCalendar)
    requires displayStart <= displayEnd
    ensures var days := HeaderDays(displayStart, displayEnd);
            var weeks := RunsOf(days, StartOfWeek);
            |weeks| * 7 == |days| &&
            (forall j :: 0 <= j < |weeks| ==> weeks[j].count == 7 && weeks[j].first == weeks[j].key
                                              && Weekday(weeks[j].key) == 0) &&
            Total(weeks) == |days| && Total(RunsOf(days, cal.startOfMonth)) == |days|
  {
    var m := StartOfWeek(displayStart);
    var k := WeeksInRange(displayStart, displayEnd);
    var days := HeaderDays(displayStart, displayEnd);
    assert days == Days(m, m + 7 * k - 1);
    var weeks := RunsOf(days, StartOfWeek);
    assert |weeks| == k && forall j :: 0 <= j < k ==> weeks[j] == Run(m + 7 * j, m + 7 * j, 7) by {
      WeekRuns(m, k);
    }
    forall j | 0 <= j < |weeks|
      ensures weeks[j].count == 7 && weeks[j].first == weeks[j].key && Weekday(weeks[j].key) == 0
    {
      WeekdayShift(m, j);
    }
    assert Total(weeks) == |days| by {
      RunsTotal(days, StartOfWeek);
    }
    assert Total(RunsOf(days, cal.startOfMonth)) == |days| by {
      RunsTotal(days, cal.startOfMonth);
    }
  }

  /**
   * The header lines up with the chart below it: for a non-empty plan the
   * chart's day columns are the header's days and both are as wide.
   */
  lemma HeaderMatchesChart(tasks: seq<PlanTask>, displayStart: Day, displayEnd: Day, today: Day)
    requires tasks != []
    ensures var v := GanttTimeline.TimelineOf(tasks, displayStart, displayEnd, today);
            v.Chart? && v.days == HeaderDays(displayStart, displayEnd)
            && v.width == |HeaderDays(displayStart, displayEnd)| * GanttTimeline.DayWidth
  {
  }
}
