/**
 * `src/components/tasks/TasksKanban.tsx`: the task list as a board. The cards
 * are the rows of `GET /api/tasks`; a move becomes `PUT /api/tasks/:id/status`.
 */
module TasksKanban {
  import opened Wrappers
  import opened Types
  import opened Seqs
  import opened Kanban

  function RowId(r: TaskRow): string {
    r.task.id
  }

  function RowStatus(r: TaskRow): Status {
    r.task.status
  }

  /** `columns`: the Backlog, In Progress and Done columns, which partition the rows in order. */
  function Columns(rows: seq<TaskRow>): (r: seq<seq<TaskRow>>)
    ensures |r| == |Board|
    ensures forall c :: 0 <= c < |r| ==> Subseq(r[c], rows)
    ensures forall c, i :: 0 <= c < |r| && 0 <= i < |r[c]| ==> r[c][i].task.status == Board[c]
    ensures multiset(r[0]) + multiset(r[1]) + multiset(r[2]) == multiset(rows)
  {
    ColumnsPartition(rows, RowStatus);
    seq(|Board|, c requires 0 <= c < |Board| => Column(rows, RowStatus, Board[c]))
  }

  /**
   * `handleDragEnd`: the status change for the card `activeId` dropped on
   * `over`, if any. A move always names a known task and a new status for it,
   * and one is issued exactly when the drop is on another target whose column
   * differs from the task's own.
   */
  function HandleDragEnd(rows: seq<TaskRow>, activeId: string, over: Option<Target>): (r: Option<Move>)
    ensures over.None? || (over.Some? && TargetId(over.value) == activeId) ==> r.None?
    ensures r.Some? ==> r.value.id == activeId
    ensures r.Some? ==> exists k :: 0 <= k < |rows| && rows[k].task.id == activeId && rows[k].task.status != r.value.status
    ensures r.Some? && over.value.ColumnTarget? ==> r.value.status == over.value.status
    ensures r.Some? && over.value.CardTarget? ==>
              exists k :: 0 <= k < |rows| && rows[k].task.id == over.value.id && rows[k].task.status == r.value.status
    ensures r.Some? <==> over.Some? && TargetId(over.value) != activeId
                         && FindById(rows, RowId, activeId).Some?
                         && Destination(rows, RowId, RowStatus, over.value).Some?
                         && RowStatus(FindById(rows, RowId, activeId).value) != Destination(rows, RowId, RowStatus, over.value).value
  {
    DragEnd(rows, RowId, RowStatus, activeId, over)
  }
}
