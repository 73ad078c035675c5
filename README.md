# Project plan (Gantt/WBS) core of the project dashboard

This project models the part of the dashboard that has rules in it. Its centre is the project plan:

- a tree of `PlanTask` nodes, each with a WBS label, dates, hours, a timesheet state and optional `subTasks`;
- the in-memory store behind the worker's routes, with lookup, insertion, partial update, cascading delete, timesheet submission and the report summary;
- the Gantt timeline: pre-order flattening, bar geometry, the Monday-to-Sunday window, the drag engine and the today line;
- the date helpers: the visible range, month buckets and working days;
- the plan page controllers: the split-pane clamp, scroll mirroring, the timeline-update gate, new-task WBS, the display range and the header buckets;
- the grid's positional WBS numbering, with collapsing and remaining hours.

It also covers the small rules around the plan:

- timesheet action enablement;
- the task form's assignee parsing and merge;
- the Kanban boards' columns and drop rule;
- the case-insensitive search filters of the task and project lists.

Dates are integer day numbers, and day 0 is a Monday, so the weekday is `d % 7`. Months and ISO weeks come from an abstract `MonthCalendar` value. A coherence predicate on it demands that every day lies inside its own month. "Now", "today" and the clock reading used for fresh ids are parameters.

Layout, module by module:

- `Types`, `Wrappers`, `Seqs`, `Strings`, `Calendar`, `Runs`: the data model and shared vocabulary.
- `PlanTree`: the reference functions over the task tree. These are pre-order flattening, lookup, the outline (every node with its depth), first-match replacement and cascading delete.
- `UserRoutes`: the worker's routes. The store is a class holding the three lists, and each route is a method on it.
- `Reports`: the reports summary.
- `GanttTimeline`, `GanttUtils`, `PlanPage`, `GanttGrid`: the plan screen.
- `TimesheetView`, `TaskDetailsForm`: the two tabs beside the plan.
- `Kanban`, `TasksKanban`, `ProjectsKanban`: the boards.
- `ListPage`, `TasksPage`, `ProjectsPage`: the list pages.

The quirks of the code are reproduced as written, not fixed:

- The "all" display range uses the root tasks only.
- Timeline updates are sent only for root task ids.
- The parent of a new subtask is looked up among the root tasks only. A subtask parent therefore gets the stored WBS `"undefined.1"`.
- The report sums cover root plan tasks only.
- The timeline lays out every node, while the grid hides collapsed subtrees.
- A missing timesheet state shows as draft, yet it enables Resubmit.
- An assignee string such as `" , "` passes the form schema and saves no assignee.

## Model

| member | source | states |
|---|---|---|
| `PlanTree.FlattenSize` | src/components/plan/GanttTimeline.tsx:40-48 | The pre-order flattening has exactly one entry per node of the tree, counted independently. |
| `PlanTree.OutlineShape` | src/components/plan/GanttTimeline.tsx:40-48 | The outline lists the flattened nodes in the same order, one row per node, with each node's depth. |
| `PlanTree.FindFirst` | worker/userRoutes.ts:7-16 | The recursive lookup returns a node exactly when some node at any depth has the id. It then returns the first such node in depth-first pre-order. |
| `PlanTree.FirstMatch` | worker/userRoutes.ts:7-16 | The first pre-order match carries the id looked for. |
| `UserRoutes.FindTask` | worker/userRoutes.ts:7-16 | The loop-and-recurse `findTask` returns the first pre-order node with the id, or nothing when no node has it. |
| `PlanTree.DeleteRemoves` | worker/userRoutes.ts:17-27 | After `deleteTaskRecursive` no node with the id is left at any depth. |
| `PlanTree.DeleteAbsent` | worker/userRoutes.ts:17-27 | Deleting an id that does not occur leaves the tree unchanged. |
| `PlanTree.DeleteKeepsOrder` | worker/userRoutes.ts:17-27 | The nodes that survive keep their relative pre-order and their depth: the new outline is a subsequence of the old one. |
| `PlanTree.DeleteUnique` | worker/userRoutes.ts:17-27 | With unique ids, deleting is removing the one matching subtree from its place. |
| `PlanTree.DeleteShrinks` | worker/userRoutes.ts:103-114 | Deleting never lengthens the serialised tree, and shortens it exactly when the id occurred. This is why the route's length test detects a real deletion. |
| `UserRoutes.Store.DeletePlanTask` | worker/userRoutes.ts:103-114 | The DELETE route replaces the tree by the cascading delete. It reports success exactly when the id occurred, and afterwards no node has the id. |
| `PlanTree.ReplaceAbsent` | worker/userRoutes.ts:80-85 | Replacing the first match of an absent id changes nothing. |
| `PlanTree.SpliceOutline` | worker/userRoutes.ts:80-85 | Replacing the first match rewrites exactly that node's block of outline rows, and leaves every row before and after it unchanged. |
| `PlanTree.BlockChildren` | worker/userRoutes.ts:80-85 | Below its first row, the match's block of rows is the outline of its children. |
| `PlanTree.FindAfterReplace` | worker/userRoutes.ts:80-85 | Once the first match is replaced by a node with the same id, the lookup finds the new node. |
| `UserRoutes.AssignLaws` | worker/userRoutes.ts:82 | `Object.assign` with an empty body changes nothing. Applying the same body twice is applying it once. |
| `UserRoutes.DatesPatchKeepsTheRest` | worker/userRoutes.ts:82 | The patch a timeline drag sends moves the two dates and keeps every other field, children included. |
| `UserRoutes.Store.UpdatePlanTask` | worker/userRoutes.ts:77-86 | PUT merges the supplied fields into the first node with the id, in place in the tree. It answers 404 and leaves the tree as it was when no node has the id. The other lists are untouched. |
| `UserRoutes.UpdateChangesOneRow` | worker/userRoutes.ts:77-86 | A PUT that does not send `subTasks` changes exactly one row of the outline, the found node's, at its old depth. |
| `UserRoutes.UpdateThenFind` | worker/userRoutes.ts:77-86 | After a PUT that keeps the id, looking the id up returns the merged node. |
| `UserRoutes.NewPlanTask` | worker/userRoutes.ts:89 | The created node has the id `gantt-<now>` and a draft timesheet, and every other field comes from the body. |
| `UserRoutes.NewPlanTaskIdsDiffer` | worker/userRoutes.ts:89 | Nodes created at different clock readings get different ids. |
| `PlanTree.AddChild` | worker/userRoutes.ts:93-94 | The parent keeps its id, and its child list (created when absent) gains the new node at the end. |
| `PlanTree.AddChildOutline` | worker/userRoutes.ts:93-94 | The new child's subtree comes right after the parent's old descendants, one level deeper. |
| `PlanTree.AppendOutline` | worker/userRoutes.ts:96-99 | Pushing a node at the root adds its outline at the end of the tree's outline. |
| `UserRoutes.Store.AddPlanTask` | worker/userRoutes.ts:87-102 | POST appends the new node as the last child of the first node with the parent id. When the parent id is missing, empty or unknown, it appends the node at the root. |
| `UserRoutes.AddThenFindParent` | worker/userRoutes.ts:90-94 | After an insertion under a parent, the parent's lookup finds it with the new node as its last child. |
| `UserRoutes.AddUnderParentOutline` | worker/userRoutes.ts:90-94 | An insertion under a parent changes only the parent's block of the outline. It rewrites the parent's row and adds the new node's rows after the old descendants. |
| `UserRoutes.TimesheetRoute` | worker/userRoutes.ts:116-133 | The submit path reaches the route that records submitted, and the resubmit path the one that records resubmitted. No route records draft. |
| `UserRoutes.Store.SubmitTimesheet` | worker/userRoutes.ts:116-124 | The first node with the id gets the state submitted, whatever its state was. Nothing else changes, and the route answers 404 with the tree untouched when no node has the id. |
| `UserRoutes.Store.ResubmitTimesheet` | worker/userRoutes.ts:125-133 | The first node with the id gets the state resubmitted, whatever its state was. Nothing else changes, and the route answers 404 with the tree untouched when no node has the id. |
| `UserRoutes.Store.SetTaskStatus` | worker/userRoutes.ts:55-64 | Only the status of the first task with the id changes. When no task has it, the route answers 404 and the list is unchanged. |
| `UserRoutes.Store.SetProjectStatus` | worker/userRoutes.ts:65-74 | Only the status of the first project with the id changes. When no project has it, the route answers 404 and the list is unchanged. |
| `UserRoutes.Store.AddProject` | worker/userRoutes.ts:35-40 | The body is stored with the id `proj-<now>` and progress 0, appended at the end. |
| `UserRoutes.Store.AddTask` | worker/userRoutes.ts:49-54 | The body is stored with the id `task-<now>`, appended at the end. |
| `UserRoutes.Store.constructor` | worker/userRoutes.ts:3 | The store starts from the given project, task and plan lists. |
| `UserRoutes.TasksWithProjectNames` | worker/userRoutes.ts:42-48 | Every task is listed, in order, with the name of the first project with its project id, or "Unknown Project" when there is none (with `UserRoutes.ProjectNameOrSpec`). |
| `UserRoutes.ProjectNameOrSpec` | worker/userRoutes.ts:44-45 | A task is shown with the name of the first project with its project id. The fallback name is used exactly when no project has that id. |
| `Reports.AllRows` | worker/userRoutes.ts:136-140 | There is one row per project, in order, with the est and used sums of the root plan tasks of its case. |
| `Reports.TimeAnalysis` | worker/userRoutes.ts:141 | Every kept row has some estimated or used hours. |
| `Reports.TimeAnalysisComplete` | worker/userRoutes.ts:136-141 | The kept rows are an order-preserving part of all rows. Every row with hours is kept as many times as the project rows hold it, duplicates included, and no other row is kept. |
| `Reports.CaseSumsAgree` | worker/userRoutes.ts:137-139 | The sums depend only on the root tasks' case and hours. |
| `Reports.TimeAnalysisTopLevelOnly` | worker/userRoutes.ts:137 | Two plans whose root tasks agree in case and hours give the same time analysis, whatever their subtasks are. |
| `Reports.OverdueRows` | worker/userRoutes.ts:142-152 | Row i is the row of the i-th task, in list order, that is not Done and was due before now, so each such task contributes exactly one row. |
| `Reports.OverdueRowsAreOverdue` | worker/userRoutes.ts:142-152 | Each row belongs to a task that is not Done and is past due, and counts a non-negative number of days. |
| `Reports.SortDescSortedPerm` | worker/userRoutes.ts:153 | The sort orders rows by days, most first, and is a permutation of its input. |
| `Reports.SortDescStable` | worker/userRoutes.ts:153 | The sort is stable: rows with the same number of days keep their order. |
| `Reports.OverdueTasks` | worker/userRoutes.ts:142-154 | The summary holds min(5, overdue count) rows, sorted by days descending, all drawn from the overdue rows. |
| `Reports.OverdueTasksAreTheMostOverdue` | worker/userRoutes.ts:153-154 | No overdue task left out of the summary is more overdue than one that is in it. |
| `Reports.PrefixDominates` | worker/userRoutes.ts:154 | After a descending sort, everything past the first n rows has at most the days of each of the first n. |
| `GanttTimeline.Walk` | src/components/plan/GanttTimeline.tsx:42-45 | `walk` appends the node and then its descendants, in pre-order, to what was already collected. |
| `GanttTimeline.FlattenTasks` | src/components/plan/GanttTimeline.tsx:40-48 | `flattenTasks` returns the pre-order of the tree, one entry per node. |
| `GanttTimeline.Window` | src/components/plan/GanttTimeline.tsx:144-149 | The window starts on the Monday on or before the start date and ends on the Sunday on or after the end date. |
| `GanttTimeline.WindowWholeWeeks` | src/components/plan/GanttTimeline.tsx:144-154 | The window of a non-empty range holds a positive whole number of weeks. |
| `GanttTimeline.BarSpansItsDays` | src/components/plan/GanttTimeline.tsx:77-82 | A bar's left edge is at its start day's column. It extends to the end of its end day's column, less the 2 px gap. Each row's bar sits 28 px below the previous one's. |
| `GanttTimeline.RoundDays` | src/components/plan/GanttTimeline.tsx:181 | The day count of a drag is the nearest whole day to the pixel offset, with halves rounded up. |
| `GanttTimeline.HandleDragEnd` | src/components/plan/GanttTimeline.tsx:175-203 | There is no update without a task or a kind, or when the drag rounds to 0 days. A move shifts the start and keeps the duration. A right resize changes only the end, never before the start. A left resize changes only the start, never after the end. Any other kind sends the dates unchanged. |
| `GanttTimeline.TodayLineInTodaysColumn` | src/components/plan/GanttTimeline.tsx:224-228 | The today line is drawn exactly when today is one of the window's days, in the middle of today's column. |
| `GanttTimeline.TimelineOf` | src/components/plan/GanttTimeline.tsx:164-173 | An empty plan shows the placeholder. Otherwise the chart has one bar per node at any depth, a width of 24 px per day, and a height of the larger of 200 px and 28 px per row. |
| `GanttTimeline.TimelineRows` | src/components/plan/GanttTimeline.tsx:240-247 | Bar i belongs to the i-th node of the pre-order and sits on row i. |
| `Calendar.StartOfWeek` | src/components/plan/GanttTimeline.tsx:144-146 | The start of a day's week is a Monday at most six days before it. |
| `Calendar.EndOfWeek` | src/components/plan/GanttTimeline.tsx:147-149 | The end of a day's week is a Sunday at most six days after it. |
| `Calendar.SameWeek` | src/pages/PlanPage.tsx:261-262 | The days of one Monday-based week share their week key. |
| `Calendar.Days` | src/lib/ganttUtils.ts:19 | The interval's days are consecutive from the start to the end, both included. An interval that ends before it starts has no days. |
| `GanttUtils.MinDate` | src/lib/ganttUtils.ts:10-11 | The minimum is a start or end date of some task and is at most every task's start and end date. |
| `GanttUtils.MaxDate` | src/lib/ganttUtils.ts:10-12 | The maximum is a start or end date of some task and is at least every task's start and end date. |
| `GanttUtils.TimelineDates` | src/lib/ganttUtils.ts:2-17 | An empty task list gives the current month. Otherwise the range runs from the first day of the earliest date's month to the last day of the latest date's month. |
| `GanttUtils.TimelineDatesCover` | src/lib/ganttUtils.ts:10-16 | Every task's start and end date lies inside the range. With no tasks, today does. |
| `GanttUtils.GenerateDateHeaders` | src/lib/ganttUtils.ts:18-33 | The header loop returns the interval's days and the month run-length buckets of those days. |
| `GanttUtils.MonthBuckets` | src/lib/ganttUtils.ts:21-31 | Every month bucket holds at least one day, and neighbouring buckets are different months. Each bucket is opened by a day of its month. The buckets spelled out are the days' months in order, and the counts sum to the number of days. |
| `Runs.RunsOfExpand` | src/lib/ganttUtils.ts:21-31 | The buckets spelled out give the items' keys in order. |
| `Runs.RunsOfWellFormed` | src/lib/ganttUtils.ts:25-30 | No bucket is empty, neighbouring buckets have different keys, and each bucket was opened by an item with its key. |
| `Runs.RunsTotal` | src/lib/ganttUtils.ts:21-31 | The bucket counts sum to the number of items. |
| `Runs.RunsConcat` | src/pages/PlanPage.tsx:261-273 | Two stretches whose meeting items have different keys are bucketed separately. |
| `Runs.RunsUniform` | src/pages/PlanPage.tsx:261-273 | Items that all share one key form a single bucket with their count. |
| `Runs.Bucket` | src/lib/ganttUtils.ts:25-30 | One loop step either extends the last bucket in place, keeping the number of buckets, or opens a new bucket with count 1. |
| `Runs.StepRuns` | src/lib/ganttUtils.ts:21-31 | Bucketing one more day is one more loop step. |
| `GanttUtils.WorkingDaysFrom` | src/lib/ganttUtils.ts:39-43 | There are never more working days than days. |
| `GanttUtils.CalculateWorkingDays` | src/lib/ganttUtils.ts:34-45 | The counting loop returns the number of days of the interval that are not a Saturday or a Sunday. That is at most the day count. |
| `GanttUtils.OneWeek` | src/lib/ganttUtils.ts:34-45 | A Monday-to-Sunday week has five working days. |
| `GanttUtils.WorkingDaysSplit` | src/lib/ganttUtils.ts:34-45 | Working days add up over consecutive stretches. |
| `GanttUtils.FullWeeks` | src/lib/ganttUtils.ts:34-45 | k whole weeks from a Monday have 5k working days. |
| `PlanPage.Clamp` | src/pages/PlanPage.tsx:19-23 | The width always lies in [964, 1600]. It is the requested width when that is inside the bounds, and otherwise the bound it crossed. |
| `PlanPage.ClampMonotone` | src/pages/PlanPage.tsx:89 | Dragging further left never narrows the grid. |
| `PlanPage.SplitPane.DragBackRestores` | src/pages/PlanPage.tsx:78-98 | Pressing the handle, dragging anywhere and coming back to the press point gives the pane the width it had when the drag started: the width follows the pointer's distance from the press point, not its path. |
| `PlanPage.SplitPane.constructor` | src/pages/PlanPage.tsx:72-76 | The pane starts at 1160 px, not dragging. |
| `PlanPage.SplitPane.MouseDown` | src/pages/PlanPage.tsx:78-81 | Mouse-down starts a drag and remembers the pointer position and the current width. |
| `PlanPage.SplitPane.MouseMove` | src/pages/PlanPage.tsx:83-91 | While dragging, the width becomes the clamped start width plus how far the pointer moved left. Outside a drag, nothing changes. |
| `PlanPage.SplitPane.MouseUp` | src/pages/PlanPage.tsx:93-97 | Mouse-up ends the drag, keeps the width, and makes later moves no-ops. |
| `PlanPage.ScrollSync.constructor` | src/pages/PlanPage.tsx:105-108 | The sync starts with the flag clear. |
| `PlanPage.ScrollSync.OnGridScroll` | src/pages/PlanPage.tsx:110-116 | With the flag clear, a grid scroll copies the grid's position to the timeline and sets the flag. While the flag is set, it does nothing. |
| `PlanPage.ScrollSync.OnTimelineScroll` | src/pages/PlanPage.tsx:118-124 | With the flag clear, a timeline scroll copies the timeline's position to the grid and sets the flag. While the flag is set, it does nothing. |
| `PlanPage.ScrollSync.FrameElapsed` | src/pages/PlanPage.tsx:114 | The animation-frame callback clears the flag and moves nothing. |
| `PlanPage.ScrollSync.UserScrollsGrid` | src/pages/PlanPage.tsx:110-124 | A grid scroll followed by the echoed timeline scroll leaves both panes at the new position. The echo is swallowed, not bounced back. |
| `PlanPage.FindRoot` | src/pages/PlanPage.tsx:168 | `tasks.find` returns the first root task with the id, and only a root task. |
| `PlanPage.TimelineUpdate` | src/pages/PlanPage.tsx:167-176 | An update is sent exactly when the id is a root task's id, and it carries the id and the two new dates. |
| `PlanPage.SubtaskDragDropped` | src/pages/PlanPage.tsx:167-176 | A subtask that the timeline shows and lets one drag has its drag dropped: no update is sent. |
| `PlanPage.SaveReplaces` | src/pages/PlanPage.tsx:165 | Saving the edited task overwrites every field of the stored node. The stored timesheet state and children are kept only where the edit lacks them. |
| `PlanPage.NewTaskDraft` | src/pages/PlanPage.tsx:183-195 | A new task is Backlog and Medium, with 8 estimated and 0 used hours, and ends one day after today. |
| `PlanPage.HandleAddTask` | src/pages/PlanPage.tsx:178-198 | The request carries the parent id as given and the draft with the computed WBS. |
| `PlanPage.NewChildWbs` | src/pages/PlanPage.tsx:179-180 | Under a root parent the new WBS is the parent's stored WBS, a dot, and its child count plus 1. |
| `PlanPage.SubtaskParentWbs` | src/pages/PlanPage.tsx:180 | Under a parent that is not a root task the new WBS is `"undefined.1"`. |
| `PlanPage.NewRootRowShowsItsWbs` | src/pages/PlanPage.tsx:181 | A new root task's stored WBS is the root count plus 1. That is the label the grid gives the node once the store has appended it at the root. |
| `PlanPage.DisplayRangeToday` | src/pages/PlanPage.tsx:206-218 | The weekly and monthly ranges contain today. The weekly one is today's Monday-to-Sunday week. |
| `PlanPage.DisplayRangeCoversRoots` | src/pages/PlanPage.tsx:219-226 | The "all" range runs from a Monday to a Sunday and covers every root task's dates. |
| `PlanPage.DisplayRangeIgnoresSubtasks` | src/pages/PlanPage.tsx:221 | Two plans whose root tasks carry the same dates get the same display range, whatever their subtasks are. |
| `PlanPage.TimelineHeaderData` | src/pages/PlanPage.tsx:231-283 | The header loop returns the widened days, their month buckets, their week buckets with each week's ISO number, and a width of 24 px per day. There is no header while the plan is not loaded. |
| `PlanPage.BucketWeek` | src/pages/PlanPage.tsx:260-273 | A week step extends or opens a week bucket, and a new bucket gets the ISO week of the day that opened it. |
| `PlanPage.OneWeekRun` | src/pages/PlanPage.tsx:260-273 | The seven days from a Monday form one week bucket of 7 days. |
| `PlanPage.WeekRuns` | src/pages/PlanPage.tsx:260-273 | k whole weeks from a Monday give k week buckets of exactly 7 days, each keyed and opened by its Monday. |
| `PlanPage.WeeksInRange` | src/pages/PlanPage.tsx:234-235 | The widened range holds a positive whole number of weeks. |
| `PlanPage.HeaderWeeks` | src/pages/PlanPage.tsx:234-281 | Every week bucket has exactly 7 days, starting on a Monday. The week counts and the month counts each sum to the number of days. |
| `PlanPage.HeaderMatchesChart` | src/pages/PlanPage.tsx:276-282 | The header and the chart widen the display range in the same way, so they show the same days and have the same width. |
| `GanttGrid.BandClass` | src/components/plan/GanttGrid.tsx:26-32 | A missing or empty WBS is blue. Otherwise no dot is blue, one dot is green and more dots are white. |
| `GanttGrid.SiblingLabel` | src/components/plan/GanttGrid.tsx:150-155 | The i-th of a row's shown children is labelled with position i+1, and the stored `wbs` plays no part. |
| `GanttGrid.RowsSnoc` | src/components/plan/GanttGrid.tsx:201-206 | A task appended to a sibling list gets the next position's label. |
| `GanttGrid.RowsAppend` | src/components/plan/GanttGrid.tsx:150-155 | A second sibling list is numbered on from where the first stops. |
| `GanttGrid.LabelDots` | src/components/plan/GanttGrid.tsx:154-155 | A label placed at level n has n dots. |
| `GanttGrid.GridLevelsAndBands` | src/components/plan/GanttGrid.tsx:150-206 | Every row's level is the number of dots in its label. Its band is blue at level 0, green at level 1 and white below. |
| `GanttGrid.GridRowFields` | src/components/plan/GanttGrid.tsx:55-134 | Each row shows estHours minus usedHours, unclamped. It has a toggle exactly when it has children, and it is expanded unless collapsed. |
| `GanttGrid.GridAllExpanded` | src/components/plan/GanttGrid.tsx:150 | With every row expanded, as at the start, the grid shows the whole tree in pre-order at its depths. |
| `GanttGrid.RowsCollapsed` | src/components/plan/GanttGrid.tsx:150 | Collapsing rows only hides rows: what remains is an order-preserving part of the full outline. |
| `GanttGrid.CollapsedShowsOnlyItself` | src/components/plan/GanttGrid.tsx:150 | A collapsed row keeps itself and hides its whole subtree. |
| `GanttGrid.GridShorterThanTimeline` | src/components/plan/GanttGrid.tsx:150 | Collapsing a root with children makes the grid shorter than the timeline, which lays out every node. |
| `GanttGrid.MenuAction` | src/components/plan/GanttGrid.tsx:139-147 | "Add Task" asks for a root task (no parent), "Add Subtask" for a child whose parent is the row's task id, and "Delete Task" deletes the row's task. |
| `TimesheetView.FlatTasks` | src/components/plan/TimesheetView.tsx:13-23 | Every node is listed once, in pre-order, and the listed ids are exactly the tree's ids. |
| `TimesheetView.DisplayState` | src/components/plan/TimesheetView.tsx:80-81 | The badge shows the recorded state, or draft when there is none. |
| `TimesheetView.Badge` | src/components/plan/TimesheetView.tsx:34-41 | The badge is green exactly for submitted, blue exactly for resubmitted and gray exactly for draft. |
| `TimesheetView.SubmitEnabled` | src/components/plan/TimesheetView.tsx:88 | Submit is enabled exactly when hours were used and the badge shows draft. |
| `TimesheetView.ResubmitEnabled` | src/components/plan/TimesheetView.tsx:94 | Resubmit is enabled exactly when hours were used and the state is not a recorded draft. A missing state enables it. |
| `TimesheetView.Endpoint` | src/components/plan/TimesheetView.tsx:25 | Submitted posts to the submit route, and anything else to the resubmit route. |
| `TimesheetView.EndpointRoute` | src/components/plan/TimesheetView.tsx:24-25 | The endpoint an action picks is the route that records that action's state. |
| `TimesheetView.HandleAction` | src/components/plan/TimesheetView.tsx:55-57 | An action sets the node's state to the one it names, through the matching route. An unknown id leaves the tree as it was. |
| `TimesheetView.AfterAction` | src/components/plan/TimesheetView.tsx:88-94 | After either action has been recorded, only Resubmit is offered. |
| `TaskDetailsForm.ResetFor` | src/components/plan/TaskDetailsForm.tsx:39-56 | Selecting a task fills the form from its fields, with the assignees joined by ", ". No task gives the defaults. |
| `TaskDetailsForm.DefaultsInvalid` | src/components/plan/TaskDetailsForm.tsx:18-36 | The untouched default form does not pass the schema. |
| `TaskDetailsForm.ParseAssignees` | src/components/plan/TaskDetailsForm.tsx:67-70 | No parsed name is empty, padded or holds a comma, and a string without a comma gives at most one name. |
| `TaskDetailsForm.ParseJoin` | src/components/plan/TaskDetailsForm.tsx:45-70 | Joining names with ", " and parsing gives the names back, in order, when each is non-empty, trimmed and comma-free. |
| `TaskDetailsForm.OnSubmit` | src/components/plan/TaskDetailsForm.tsx:59-72 | With no task nothing is saved. Otherwise the saved task is the selected one with only description, status, priority, assignees and estHours taken from the form. |
| `TaskDetailsForm.SaveUnchangedForm` | src/components/plan/TaskDetailsForm.tsx:39-72 | Saving a reset form, untouched, gives the task back when its names are plain. |
| `TaskDetailsForm.SaveIsStable` | src/components/plan/TaskDetailsForm.tsx:39-72 | After one save, resetting from the saved task and saving again changes nothing. |
| `TaskDetailsForm.BlankAssigneesPass` | src/components/plan/TaskDetailsForm.tsx:18-70 | The assignee string `" , "` passes the schema yet saves no assignee. |
| `Kanban.Column` | src/components/tasks/TasksKanban.tsx:69-74 | A column is the order-preserving sublist of the items with its status. |
| `Kanban.ColumnsPartition` | src/components/tasks/TasksKanban.tsx:69-74 | Together the three columns hold each item exactly as often as the list does. |
| `Kanban.ColumnOfItem` | src/components/tasks/TasksKanban.tsx:69-74 | An item sits in the column of its own status and in no other. |
| `Kanban.FindById` | src/components/tasks/TasksKanban.tsx:88 | `find` by id returns the first item with the id, or nothing exactly when no item has it. |
| `Kanban.Destination` | src/components/tasks/TasksKanban.tsx:90-93 | A column target gives its own status. A card target gives the status of the card with that id, or nothing for an unknown card. |
| `Kanban.DragEnd` | src/components/tasks/TasksKanban.tsx:82-97 | A move is issued exactly when there is a target other than the card itself, the card is known, the target has a destination column, and that column differs from the card's status. A move carries the card's id and that destination. |
| `Kanban.MoveChangesColumn` | src/components/tasks/TasksKanban.tsx:94-96 | Every move takes the card out of its column and into another one. |
| `Kanban.DropOnColumn` | src/components/tasks/TasksKanban.tsx:90-96 | Dropping a known card on another status's column moves it there. |
| `Kanban.DropOnCard` | src/components/tasks/TasksKanban.tsx:90-96 | Dropping a known card on another card, in a different column, moves it to the column of the first card with that id. |
| `Kanban.DropInOwnColumn` | src/components/tasks/TasksKanban.tsx:94 | Dropping a card on its own column, or on a card of that column, does nothing. |
| `TasksKanban.Columns` | src/components/tasks/TasksKanban.tsx:69-74 | The three task columns, in board order, each hold tasks of their status in list order, and together they partition the list. |
| `TasksKanban.HandleDragEnd` | src/components/tasks/TasksKanban.tsx:82-97 | A task move needs a target other than the card itself. It carries the dragged task's id and a status different from that task's, namely the column dropped on or the target card's. A move is issued exactly when the dragged task is known and the destination exists and differs from its status. |
| `ProjectsKanban.Columns` | src/components/projects/ProjectsKanban.tsx:71-76 | The three project columns, in board order, each hold projects of their status in list order, and together they partition the list. |
| `ProjectsKanban.HandleDragEnd` | src/components/projects/ProjectsKanban.tsx:84-99 | A project move needs a target other than the card itself. It carries the dragged project's id and a status different from that project's, namely the column dropped on or the target card's. A move is issued exactly when the dragged project is known and the destination exists and differs from its status. |
| `Types.StatusNamed` | src/types/index.ts:1-2 | A column title names exactly one status. |
| `ListPage.ViewMode` | src/pages/TasksPage.tsx:24 | The view is the URL parameter when it is non-empty, and "table" otherwise. |
| `ListPage.ContentFor` | src/pages/TasksPage.tsx:52-56 | The table is shown exactly when the parameter is missing, empty or "table". Any other value shows the board. |
| `ListPage.MatchIgnoresCase` | src/pages/TasksPage.tsx:32-35 | Lower-casing the field or the query does not change whether they match. |
| `ListPage.OccurrenceMatches` | src/pages/TasksPage.tsx:32-35 | A field that contains the query verbatim matches it. |
| `ListPage.EmptyQueryMatches` | src/pages/TasksPage.tsx:32-35 | The empty query matches every field. |
| `TasksPage.FilteredTasks` | src/pages/TasksPage.tsx:30-36 | No data gives no rows. Otherwise the result is an order-preserving sublist holding exactly the tasks whose name or project name contains the query, ignoring the case of A–Z. Each matching row is kept as many times as the data holds it. An empty query keeps every task. |
| `ProjectsPage.FilteredProjects` | src/pages/ProjectsPage.tsx:27-33 | No data gives no rows. Otherwise the result is an order-preserving sublist holding exactly the projects whose name or case code contains the query, ignoring the case of A–Z. Each matching project is kept as many times as the data holds it. An empty query keeps every project. |
| `Strings.SplitJoin` | src/components/plan/TaskDetailsForm.tsx:67-68 | Splitting a join of comma-free pieces on the comma gives the pieces back. |
| `Strings.Split` | src/components/plan/TaskDetailsForm.tsx:68 | Joining the pieces with the separator gives the string back. There is one more piece than separators, and no piece holds the separator. |
| `Strings.Trim` | src/components/plan/TaskDetailsForm.tsx:69 | A trimmed string has no leading or trailing whitespace. |
| `Strings.ParseNatToString` | worker/userRoutes.ts:89 | The decimal text of a number reads back as that number. |

## Left out

- Network I/O is not modelled: the `fetch` helpers, react-query queries and mutations, cache invalidation and toasts. A timeline drag's gateway call is the `DatesPatch` request. The timesheet action is carried straight to the store's route.
- Hono routing and JSON request parsing are not modelled; each handler is a method on `UserRoutes.Store`. `Date.now()` is a `now` parameter, `new Date()` is a `today` or `now` parameter, and the response bodies are the methods' results.
- The GET routes that return a list unchanged, and the dashboard and test routes, are left out: they hold no rule.
- date-fns is not modelled: time zones, daylight saving, ISO string parsing and formatting, and the real Gregorian calendar. Days are integers, and months and ISO week numbers come from an abstract `MonthCalendar`.
- `Calendar.Days`: an interval that ends before it starts gives no days. The library throws or lists the days backwards there (it depends on its version), and no caller in this core passes such an interval.
- Month buckets are keyed by the first day of the month. `generateDateHeaders` compares month name and year, which splits days into the same buckets, and the display names are not modelled.
- Pixel offsets are whole numbers, and `Math.round(dx / 24)` is rounding half up on integers. Fractional pointer deltas are not modelled.
- `requestAnimationFrame` is the explicit `FrameElapsed` event.
- `PlanPage.ScrollSync.OnGridScroll` and `PlanPage.ScrollSync.UserScrollsGrid` model a path the page never takes. The page looks for a `.overflow-y-auto` element inside the grid (src/pages/PlanPage.tsx:127-128), and the grid renders none. So `handleGridScroll` is never attached, and only the timeline-to-grid copy runs in the page. The model keeps both handlers as written and does not model which element the page finds.
- dnd-kit sensors and activation distances, and the react-hook-form/zod machinery, are not modelled; only the predicates they evaluate are kept. The drop target is either a column (its id is its status title) or a card, so the `overId as TaskStatus` cast always names a status.
- `TaskDetailsForm.ResetFor`: the `??` fallbacks for missing fields are not modelled, because every `PlanTask` field they guard is required in the model, as in the type declarations.
- `GanttGrid.GridRowFields`: remaining hours has no `?? 0` fallback, because estimated and used hours are required numbers in the model.
- The DELETE route's `JSON.stringify` length test is modelled as a node-text length count (`JsonLength`). Each node counts its own fields plus its children's list. Exact character counts of the fields are not modelled.
- The view-mode toggle, the selection reset after a delete, the search store and the page layout are presentation state and are not modelled.
- Rendering, styling and charts are not modelled: TimelineHeader, StatusBadge, the dashboard cards and charts, the layout, the table column definitions and the remaining pages.
- The add-task and add-project modals are not modelled; they only copy form fields and stamp the current date.
- The mock data is not modelled; the store's constructor takes any initial lists instead.
- FilteredTasks (`TasksPage.FilteredTasks`): the case-insensitive match folds only A–Z (`Strings.ToLower`, used by `ListPage.Matches`). JavaScript's `toLowerCase` folds all of Unicode, so a query such as "đặng" against the name "ĐẶNG" is kept by the page but dropped by the model. Unicode case mapping, including mappings that change a string's length, is not modelled.
- FilteredProjects (`ProjectsPage.FilteredProjects`): the same A–Z-only folding applies to the project name and case code.
- Hours are whole numbers (`estHours`, `usedHours` in `Types.PlanTask`, and `estHours` in `TaskDetailsForm.FormData`). The source's hours are JavaScript floating-point numbers, and the form stores `parseFloat(...) || 0`. So fractional hours such as 1.5, and their rounding, are not modelled in `GanttGrid.GridRowFields`' remaining hours, the report sums, or `TimesheetView.SubmitEnabled`/`ResubmitEnabled`. Floating-point parsing is not modelled either.
