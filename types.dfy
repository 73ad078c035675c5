/**
 * The records the dashboard and its in-memory server exchange. Dates are
 * calendar days (`Calendar.Day`), hours are whole numbers.
 */
module Types {
  import opened Wrappers
  import opened Calendar

  /** Project and task status; the two unions in the source list the same three names. */
  datatype Status = Backlog | InProgress | Done

  datatype Priority = Low | Medium | High

  /** An optional JavaScript string is truthy when it is present and not empty. */
  predicate Truthy(s: Option<string>) {
    s.Some? && s.value != ""
  }

  /** Lifecycle of a plan task's timesheet. */
  datatype TimesheetState = Draft | Submitted | Resubmitted

  /** The label each status carries on screen and in the Kanban column titles. */
  function StatusName(s: Status): (r: string)
    ensures |r| > 0
  {
    match s
    case Backlog => "Backlog"
    case InProgress => "In Progress"
    case Done => "Done"
  }

  /** The status whose label is `name`, if any. */
  function StatusNamed(name: string): (r: Option<Status>)
    ensures r.Some? ==> StatusName(r.value) == name
    ensures forall s :: StatusName(s) == name ==> r == Some(s)
  {
    if name == "Backlog" then Some(Backlog)
    else if name == "In Progress" then Some(InProgress)
    else if name == "Done" then Some(Done)
    else None
  }

  /**
   * The optional child list of a plan task: `NoSubTasks` is the absent
   * `subTasks` key, `SubTasks([])` an empty array.
   */
  datatype SubTasks = NoSubTasks | SubTasks(tasks: seq<PlanTask>)

  /** One node of the work breakdown structure. */
  datatype PlanTask = PlanTask(
    id: string,
    wbs: string,
    projectCase: string,
    name: string,
    description: string,
    assignees: seq<string>,
    priority: Priority,
    status: Status,
    startDate: Day,
    endDate: Day,
    estHours: int,
    usedHours: int,
    timesheetState: Option<TimesheetState>,
    subTasks: SubTasks)

  /** The children of a plan task, empty when it has no `subTasks` key. */
  function Children(t: PlanTask): seq<PlanTask> {
    match t.subTasks
    case NoSubTasks => []
    case SubTasks(cs) => cs
  }

  /** A project; the source's `case` field is the project code, here `caseCode`. */
  datatype Project = Project(
    id: string,
    caseCode: string,
    name: string,
    status: Status,
    startDate: Day,
    dueDate: Day,
    progress: int,
    owner: string)

  datatype Task = Task(
    id: string,
    name: string,
    projectId: string,
    status: Status,
    priority: Priority,
    assignedTo: string,
    dueDate: Day)

  /** A task as the task list receives it, with the name of its project added. */
  datatype TaskRow = TaskRow(task: Task, projectName: string)
}
