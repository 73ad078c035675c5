/**
 * The in-memory server behind the dashboard: three mutable lists (projects,
 * tasks and the plan's task tree) and the routes that read and change them.
 * Each route is a method of `Store`; the response is its result, with `None`
 * (or `false`) for the 404 "not found" answer. The clock value `Date.now()`
 * that names new records is a parameter.
 */
module UserRoutes {
  import opened Wrappers
  import opened Types
  import opened Seqs
  import opened Strings
  import opened PlanTree

  /**
   * `findTask`: the loop over a list that returns the first node with the id,
   * searching each node's children before moving on.
   */
  method FindTask(ts: seq<PlanTask>, id: string) returns (r: Option<PlanTask>)
    ensures r == Find(ts, id)
    ensures r == if Contains(ts, id) then Some(FirstMatch(ts, id)) else None
    decreases SubTasks(ts)
  {
    FindFirst(ts, id);
    var i := 0;
    while i < |ts|
      invariant 0 <= i <= |ts|
      invariant Find(ts[i..], id) == Find(ts, id)
    {
      var t := ts[i];
      assert ts[i..][0] == t && ts[i..][1..] == ts[i + 1..];
      if t.id == id {
        return Some(t);
      }
      match t.subTasks {
        case NoSubTasks =>
        case SubTasks(cs) =>
          var found := FindTask(cs, id);
          if found.Some? {
            return found;
          }
      }
      i := i + 1;
    }
    return None;
  }

  /**
   * The body of a plan PUT: the keys it carries. `Object.assign` copies each
   * present key onto the task, `id` and `subTasks` included.
   */
  datatype PlanTaskPatch = PlanTaskPatch(
    id: Option<string>,
    wbs: Option<string>,
    projectCase: Option<string>,
    name: Option<string>,
    description: Option<string>,
    assignees: Option<seq<string>>,
    priority: Option<Priority>,
    status: Option<Status>,
    startDate: Option<Calendar.Day>,
    endDate: Option<Calendar.Day>,
    estHours: Option<int>,
    usedHours: Option<int>,
    timesheetState: Option<TimesheetState>,
    subTasks: Option<seq<PlanTask>>)

  const EmptyPatch := PlanTaskPatch(None, None, None, None, None, None, None, None, None, None, None, None, None, None)

  /** The patch the timeline sends after a drag: the task's key and its two new dates. */
  function DatesPatch(id: string, start: Calendar.Day, end: Calendar.Day): PlanTaskPatch {
    EmptyPatch.(id := Some(id), startDate := Some(start), endDate := Some(end))
  }

  /** `Object.assign(t, p)`. */
  function Assign(t: PlanTask, p: PlanTaskPatch): PlanTask {
    PlanTask(
      p.id.GetOr(t.id), p.wbs.GetOr(t.wbs), p.projectCase.GetOr(t.projectCase),
      p.name.GetOr(t.name), p.description.GetOr(t.description), p.assignees.GetOr(t.assignees),
      p.priority.GetOr(t.priority), p.status.GetOr(t.status),
      p.startDate.GetOr(t.startDate), p.endDate.GetOr(t.endDate),
      p.estHours.GetOr(t.estHours), p.usedHours.GetOr(t.usedHours),
      if p.timesheetState.Some? then p.timesheetState else t.timesheetState,
      if p.subTasks.Some? then SubTasks(p.subTasks.value) else t.subTasks)
  }

  /** An empty body changes nothing, and applying the same body twice is applying it once. */
  lemma AssignLaws(t: PlanTask, p: PlanTaskPatch)
    ensures Assign(t, EmptyPatch) == t
    ensures Assign(Assign(t, p), p) == Assign(t, p)
  {
  }

  /** A drag's patch moves the dates and keeps every other field, children included. */
  lemma DatesPatchKeepsTheRest(t: PlanTask, start: Calendar.Day, end: Calendar.Day)
    ensures Assign(t, DatesPatch(t.id, start, end)) == t.(startDate := start, endDate := end)
  {
  }

  /** The record a plan POST stores: the body's task with a fresh id and a draft timesheet. */
  function NewPlanTask(draft: PlanTask, now: nat): (n: PlanTask)
    ensures n.id == "gantt-" + NatToString(now)
    ensures n.timesheetState == Some(Draft)
    ensures n.(id := draft.id, timesheetState := draft.timesheetState) == draft
  {
    draft.(id := "gantt-" + NatToString(now), timesheetState := Some(Draft))
  }

  /** Records created at different clock readings get different ids. */
  lemma NewPlanTaskIdsDiffer(a: PlanTask, b: PlanTask, m: nat, n: nat)
    requires m != n
    ensures NewPlanTask(a, m).id != NewPlanTask(b, n).id
  {
    if NewPlanTask(a, m).id == NewPlanTask(b, n).id {
      var pa, pb := "gantt-" + NatToString(m), "gantt-" + NatToString(n);
      assert pa[6..] == NatToString(m) && pb[6..] == NatToString(n);
      NatToStringInjective(m, n);
    }
  }

  /** A task whose project is known is shown with that project's name. */
  function ProjectNameOr(projects: seq<Project>, projectId: string, fallback: string): string {
    match FirstIndex(projects, (p: Project) => p.id == projectId)
    case Some(k) => projects[k].name
    case None => fallback
  }

  /** The first project with the id names the task, and the fallback is used exactly when there is none. */
  lemma ProjectNameOrSpec(projects: seq<Project>, projectId: string, fallback: string)
    ensures (exists i :: 0 <= i < |projects| && projects[i].id == projectId) ==>
              exists i :: 0 <= i < |projects| && projects[i].id == projectId
                && ProjectNameOr(projects, projectId, fallback) == projects[i].name
                && forall j :: 0 <= j < i ==> projects[j].id != projectId
    ensures (forall i :: 0 <= i < |projects| ==> projects[i].id != projectId) ==>
              ProjectNameOr(projects, projectId, fallback) == fallback
  {
    var r := FirstIndex(projects, (p: Project) => p.id == projectId);
    if r.Some? {
      var k := r.value;
      assert 0 <= k < |projects| && projects[k].id == projectId;
    }
  }

  /** `GET /api/tasks`: every task, in order, with its project's name or "Unknown Project". */
  function TasksWithProjectNames(tasks: seq<Task>, projects: seq<Project>): (r: seq<TaskRow>)
    ensures |r| == |tasks|
    ensures forall i :: 0 <= i < |r| ==> r[i].task == tasks[i]
    ensures forall i :: 0 <= i < |r| ==>
              r[i].projectName == ProjectNameOr(projects, tasks[i].projectId, "Unknown Project")
  {
    seq(|tasks|, i requires 0 <= i < |tasks| =>
      TaskRow(tasks[i], ProjectNameOr(projects, tasks[i].projectId, "Unknown Project")))
  }

  const SubmitPath: string := "/api/timesheet/submit"
  const ResubmitPath: string := "/api/timesheet/resubmit"

  /** Which timesheet route a POST path reaches, named by the state that route records. */
  function TimesheetRoute(path: string): (r: Option<TimesheetState>)
    ensures r == Some(Submitted) <==> path == SubmitPath
    ensures r == Some(Resubmitted) <==> path == ResubmitPath
    ensures r != Some(Draft)
  {
    if path == SubmitPath then Some(Submitted)
    else if path == ResubmitPath then Some(Resubmitted)
    else None
  }

  /** The in-memory lists the routes share. */
  class Store {
    var projects: seq<Project>
    var tasks: seq<Task>
    var planTasks: seq<PlanTask>

    constructor (projects0: seq<Project>, tasks0: seq<Task>, plan0: seq<PlanTask>)
      ensures projects == projects0 && tasks == tasks0 && planTasks == plan0
    {
      projects, tasks, planTasks := projects0, tasks0, plan0;
    }

    /** `POST /api/projects`: the body gets the id `proj-<now>` and progress 0 and is appended. */
    method AddProject(data: Project, now: nat) returns (created: Project)
      modifies this
      ensures created == data.(id := "proj-" + NatToString(now), progress := 0)
      ensures projects == old(projects) + [created]
      ensures tasks == old(tasks) && planTasks == old(planTasks)
    {
      created := data.(id := "proj-" + NatToString(now), progress := 0);
      projects := projects + [created];
    }

    /** `POST /api/tasks`: the body gets the id `task-<now>` and is appended. */
    method AddTask(data: Task, now: nat) returns (created: Task)
      modifies this
      ensures created == data.(id := "task-" + NatToString(now))
      ensures tasks == old(tasks) + [created]
      ensures projects == old(projects) && planTasks == old(planTasks)
    {
      created := data.(id := "task-" + NatToString(now));
      tasks := tasks + [created];
    }

    /** `PUT /api/tasks/:id/status`: the first task with the id gets the status; 404 when none has it. */
    method SetTaskStatus(id: string, status: Status) returns (r: Option<Task>)
      modifies this
      ensures match FirstIndex(old(tasks), (t: Task) => t.id == id)
              case None => r == None && tasks == old(tasks)
              case Some(k) => r == Some(old(tasks)[k].(status := status))
                              && tasks == old(tasks)[k := old(tasks)[k].(status := status)]
      ensures projects == old(projects) && planTasks == old(planTasks)
    {
      var k := FirstIndex(tasks, (t: Task) => t.id == id);
      if k.Some? {
        var updated := tasks[k.value].(status := status);
        tasks := tasks[k.value := updated];
        r := Some(updated);
      } else {
        r := None;
      }
    }

    /** `PUT /api/projects/:id/status`: the first project with the id gets the status; 404 when none has it. */
    method SetProjectStatus(id: string, status: Status) returns (r: Option<Project>)
      modifies this
      ensures match FirstIndex(old(projects), (p: Project) => p.id == id)
              case None => r == None && projects == old(projects)
              case Some(k) => r == Some(old(projects)[k].(status := status))
                              && projects == old(projects)[k := old(projects)[k].(status := status)]
      ensures tasks == old(tasks) && planTasks == old(planTasks)
    {
      var k := FirstIndex(projects, (p: Project) => p.id == id);
      if k.Some? {
        var updated := projects[k.value].(status := status);
        projects := projects[k.value := updated];
        r := Some(updated);
      } else {
        r := None;
      }
    }

    /**
     * `PUT /api/plan/tasks/:taskId`: the first node with the id, at any depth,
     * takes the body's keys; the answer is the updated node, or 404.
     */
    method UpdatePlanTask(id: string, patch: PlanTaskPatch) returns (r: Option<PlanTask>)
      modifies this
      ensures r.Some? <==> Contains(old(planTasks), id)
      ensures r.None? ==> planTasks == old(planTasks)
      ensures r.Some? ==> r == Some(Assign(FirstMatch(old(planTasks), id), patch))
                          && planTasks == ReplaceFirst(old(planTasks), id, [r.value])
      ensures projects == old(projects) && tasks == old(tasks)
    {
      var found := FindTask(planTasks, id);
      if found.Some? {
        var updated := Assign(found.value, patch);
        planTasks := ReplaceFirst(planTasks, id, [updated]);
        r := Some(updated);
      } else {
        r := None;
      }
    }

    /**
     * `POST /api/plan/tasks`: the new node goes at the end of its parent's
     * children when a non-empty parent id names an existing node, and at the
     * end of the top level otherwise.
     */
    method AddPlanTask(parentId: Option<string>, draft: PlanTask, now: nat) returns (created: PlanTask)
      modifies this
      ensures created == NewPlanTask(draft, now)
      ensures Truthy(parentId) && Contains(old(planTasks), parentId.value) ==>
                planTasks == ReplaceFirst(old(planTasks), parentId.value,
                                          [AddChild(FirstMatch(old(planTasks), parentId.value), created)])
      ensures !(Truthy(parentId) && Contains(old(planTasks), parentId.value)) ==>
                planTasks == old(planTasks) + [created]
      ensures projects == old(projects) && tasks == old(tasks)
    {
      created := NewPlanTask(draft, now);
      if Truthy(parentId) {
        var parent := FindTask(planTasks, parentId.value);
        if parent.Some? {
          planTasks := ReplaceFirst(planTasks, parentId.value, [AddChild(parent.value, created)]);
        } else {
          planTasks := planTasks + [created];
        }
      } else {
        planTasks := planTasks + [created];
      }
    }

    /**
     * `DELETE /api/plan/tasks/:taskId`: every node with the id goes, with its
     * subtree; success is judged by the serialised list getting shorter, which
     * happens exactly when the id occurred.
     */
    method DeletePlanTask(id: string) returns (deleted: bool)
      modifies this
      ensures planTasks == DeleteAll(old(planTasks), id)
      ensures deleted <==> Contains(old(planTasks), id)
      ensures !Contains(planTasks, id)
      ensures projects == old(projects) && tasks == old(tasks)
    {
      var initialLength := JsonLength(planTasks);
      DeleteShrinks(planTasks, id);
      DeleteRemoves(planTasks, id);
      planTasks := DeleteAll(planTasks, id);
      deleted := JsonLength(planTasks) < initialLength;
    }

    /** `POST /api/timesheet/submit`: the node's timesheet becomes submitted; 404 when it is missing. */
    method SubmitTimesheet(id: string) returns (r: Option<PlanTask>)
      modifies this
      ensures r.Some? <==> Contains(old(planTasks), id)
      ensures r.None? ==> planTasks == old(planTasks)
      ensures r.Some? ==> r == Some(FirstMatch(old(planTasks), id).(timesheetState := Some(Submitted)))
                          && planTasks == ReplaceFirst(old(planTasks), id, [r.value])
      ensures projects == old(projects) && tasks == old(tasks)
    {
      var found := FindTask(planTasks, id);
      if found.Some? {
        var updated := found.value.(timesheetState := Some(Submitted));
        planTasks := ReplaceFirst(planTasks, id, [updated]);
        r := Some(updated);
      } else {
        r := None;
      }
    }

    /** `POST /api/timesheet/resubmit`: the node's timesheet becomes resubmitted; 404 when it is missing. */
    method ResubmitTimesheet(id: string) returns (r: Option<PlanTask>)
      modifies this
      ensures r.Some? <==> Contains(old(planTasks), id)
      ensures r.None? ==> planTasks == old(planTasks)
      ensures r.Some? ==> r == Some(FirstMatch(old(planTasks), id).(timesheetState := Some(Resubmitted)))
                          && planTasks == ReplaceFirst(old(planTasks), id, [r.value])
      ensures projects == old(projects) && tasks == old(tasks)
    {
      var found := FindTask(planTasks, id);
      if found.Some? {
        var updated := found.value.(timesheetState := Some(Resubmitted));
        planTasks := ReplaceFirst(planTasks, id, [updated]);
        r := Some(updated);
      } else {
        r := None;
      }
    }
  }

  /* ---------- what the plan routes do to the tree, as a whole ---------- */

  /**
   * An update rewrites exactly one outline row, the first match's, when the
   * body leaves `subTasks` alone.
   */
  lemma UpdateChangesOneRow(ts: seq<PlanTask>, id: string, patch: PlanTaskPatch, d: nat)
    requires Contains(ts, id) && patch.subTasks.None?
    ensures var o, k, n := Outline(ts, d), FirstPos(ts, id), Assign(FirstMatch(ts, id), patch);
            k < |o| && Outline(ReplaceFirst(ts, id, [n]), d) == o[k := Row(Strip(n), o[k].depth)]
  {
    var o, k := Outline(ts, d), FirstPos(ts, id);
    var t := FirstMatch(ts, id);
    var n := Assign(t, patch);
    var m := MatchSize(ts, id);
    SpliceOutline(ts, id, [n], d);
    OutlineBlock(ts, id, d);
    var dk := o[k].depth;
    assert o[k..k + m] == OutlineNode(t, dk);
    OutlineSingle(n, dk);
    SameChildrenOutline(t, n, dk);
    assert OutlineNode(t, dk)[1..] == o[k + 1..k + m];
    SpliceOneRow(o, k, m, Row(Strip(n), dk));
  }

  /** After an update that keeps the id, the lookup finds the updated node. */
  lemma UpdateThenFind(ts: seq<PlanTask>, id: string, patch: PlanTaskPatch)
    requires Contains(ts, id) && (patch.id.None? || patch.id == Some(id))
    ensures Find(ReplaceFirst(ts, id, [Assign(FirstMatch(ts, id), patch)]), id) == Some(Assign(FirstMatch(ts, id), patch))
  {
    FindAfterReplace(ts, id, Assign(FirstMatch(ts, id), patch));
  }

  /** After adding under a parent, the lookup of the parent finds it with the new node as its last child. */
  lemma AddThenFindParent(ts: seq<PlanTask>, parentId: string, n: PlanTask)
    requires Contains(ts, parentId)
    ensures var p := AddChild(FirstMatch(ts, parentId), n);
            Find(ReplaceFirst(ts, parentId, [p]), parentId) == Some(p)
            && Children(p)[|Children(p)| - 1] == n
  {
    FindAfterReplace(ts, parentId, AddChild(FirstMatch(ts, parentId), n));
  }

  /**
   * Adding under a parent rewrites only the parent's block of the outline: it
   * becomes the parent's row (whose child list is no longer absent), the old
   * rows of its descendants, and then the new node's rows one level below the
   * parent. All rows before and after the block are kept.
   */
  lemma AddUnderParentOutline(ts: seq<PlanTask>, parentId: string, n: PlanTask, o: seq<Row>, k: nat, m: nat)
    requires Contains(ts, parentId)
    requires o == Outline(ts, 0) && k == FirstPos(ts, parentId) && m == MatchSize(ts, parentId)
    ensures k < k + m <= |o|
    ensures Outline(ReplaceFirst(ts, parentId, [AddChild(FirstMatch(ts, parentId), n)]), 0)
         == Spliced(o, k, m, [Row(Strip(AddChild(FirstMatch(ts, parentId), n)), o[k].depth)] + o[k + 1..k + m]
                             + OutlineNode(n, o[k].depth + 1))
  {
    var p := FirstMatch(ts, parentId);
    var c := AddChild(p, n);
    SpliceOutline(ts, parentId, [c], 0);
    BlockChildren(ts, parentId, 0, o, k, m);
    OutlineSingle(c, o[k].depth);
    AddChildOutline(p, n, o[k].depth);
  }
}
