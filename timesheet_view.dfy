/**
 * `src/components/plan/TimesheetView.tsx`: one row per plan task, at every
 * depth, with a context menu offering Submit and Resubmit. The badge shows the
 * task's timesheet state, and a missing state shows as draft. Each action
 * posts the task's id to the endpoint for that action.
 */
module TimesheetView {
  import opened Wrappers
  import opened Types
  import opened PlanTree
  import GanttTimeline
  import UserRoutes

  /** `flattenTasks`: every node once, parents before their descendants, as the timeline lists them. */
  method FlatTasks(ts: seq<PlanTask>) returns (out: seq<PlanTask>)
    ensures out == Flatten(ts)
    ensures |out| == Size(ts)
    ensures forall id :: id in IdsOf(out) <==> Contains(ts, id)
  {
    out := GanttTimeline.FlattenTasks(ts);
  }

  /** The state the badge shows: `timesheetState || 'draft'`. */
  function DisplayState(t: PlanTask): (r: TimesheetState)
    ensures t.timesheetState.Some? ==> r == t.timesheetState.value
    ensures t.timesheetState.None? ==> r == Draft
  {
    t.timesheetState.GetOr(Draft)
  }

  datatype BadgeColour = Gray | Green | Blue

  /** `getStatusBadgeClass`, by colour: green when submitted, blue when resubmitted, gray otherwise. */
  function Badge(s: TimesheetState): (r: BadgeColour)
    ensures r == Green <==> s == Submitted
    ensures r == Blue <==> s == Resubmitted
    ensures r == Gray <==> s == Draft
  {
    match s
    case Submitted => Green
    case Resubmitted => Blue
    case Draft => Gray
  }

  /**
   * The Submit item is enabled unless no hours were used or the timesheet was
   * already submitted or resubmitted; so exactly when hours were used and the
   * badge shows draft.
   */
  function SubmitEnabled(t: PlanTask): (r: bool)
    ensures r <==> t.usedHours != 0 && DisplayState(t) == Draft
  {
    !(t.usedHours == 0 || t.timesheetState == Some(Submitted) || t.timesheetState == Some(Resubmitted))
  }

  /**
   * The Resubmit item is enabled unless no hours were used or the state is
   * draft. A missing state is not `'draft'`, so it enables Resubmit although
   * the badge shows draft.
   */
  function ResubmitEnabled(t: PlanTask): (r: bool)
    ensures r <==> t.usedHours != 0 && (t.timesheetState.None? || DisplayState(t) != Draft)
  {
    !(t.usedHours == 0 || t.timesheetState == Some(Draft))
  }

  /** A task with no recorded hours offers neither action; one with hours offers at least one. */
  lemma ActionsNeedHours(t: PlanTask)
    ensures t.usedHours == 0 <==> !SubmitEnabled(t) && !ResubmitEnabled(t)
  {
  }

  /** With hours and no state, the badge says draft and both actions are offered. */
  lemma MissingStateOffersBoth(t: PlanTask)
    requires t.usedHours != 0 && t.timesheetState.None?
    ensures DisplayState(t) == Draft && Badge(DisplayState(t)) == Gray
    ensures SubmitEnabled(t) && ResubmitEnabled(t)
  {
  }

  /** With a recorded state, exactly one action is offered to a task with hours. */
  lemma RecordedStateOffersOne(t: PlanTask)
    requires t.usedHours != 0 && t.timesheetState.Some?
    ensures SubmitEnabled(t) != ResubmitEnabled(t)
    ensures SubmitEnabled(t) <==> t.timesheetState == Some(Draft)
  {
  }

  /** After either action succeeds, only Resubmit is offered. */
  lemma AfterAction(t: PlanTask, s: TimesheetState)
    requires t.usedHours != 0 && s != Draft
    ensures !SubmitEnabled(t.(timesheetState := Some(s)))
    ensures ResubmitEnabled(t.(timesheetState := Some(s)))
  {
  }

  /** `updateTimesheet`'s endpoint: the submit route for `'submitted'`, the resubmit route for anything else. */
  function Endpoint(s: TimesheetState): (r: string)
    ensures r == UserRoutes.SubmitPath <==> s == Submitted
    ensures r == UserRoutes.ResubmitPath <==> s != Submitted
  {
    if s == Submitted then UserRoutes.SubmitPath else UserRoutes.ResubmitPath
  }

  /** The route the endpoint reaches records the state the action names. */
  lemma EndpointRoute(s: TimesheetState)
    requires s != Draft
    ensures UserRoutes.TimesheetRoute(Endpoint(s)) == Some(s)
  {
  }

  /**
   * `handleAction`, carried through to the server: post the task's id to the
   * endpoint for `s`, which sets the node's state to `s` (a 404 leaves the
   * tree as it was).
   */
  method HandleAction(store: UserRoutes.Store, taskId: string, s: TimesheetState) returns (r: Option<PlanTask>)
    requires s != Draft
    modifies store
    ensures r.Some? <==> Contains(old(store.planTasks), taskId)
    ensures r.None? ==> store.planTasks == old(store.planTasks)
    ensures r.Some? ==> r == Some(FirstMatch(old(store.planTasks), taskId).(timesheetState := Some(s)))
                        && store.planTasks == ReplaceFirst(old(store.planTasks), taskId, [r.value])
    ensures store.projects == old(store.projects) && store.tasks == old(store.tasks)
  {
    var route := UserRoutes.TimesheetRoute(Endpoint(s));
    EndpointRoute(s);
    if route == Some(Submitted) {
      r := store.SubmitTimesheet(taskId);
    } else {
      r := store.ResubmitTimesheet(taskId);
    }
  }
}
