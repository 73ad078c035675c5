/**
 * `src/components/projects/ProjectsKanban.tsx`: the project list as a board. The cards
 * are the projects of `GET /api/projects`; a move becomes `PUT /api/projects/:id/status`.
 */
module ProjectsKanban {
  import opened Wrappers
  import opened Types
  import opened Seqs
  import opened Kanban

  function ProjectId(p: Project): string {
    p.id
  }

  function ProjectStatus(p: Project): Status {
    p.status
  }

  /** `columns`: the Backlog, In Progress and Done columns, which partition the projects in order. */
  function Columns(projects: seq<Project>): (r: seq<seq<Project>>)
    ensures |r| == |Board|
    ensures forall c :: 0 <= c < |r| ==> Subseq(r[c], projects)
    ensures forall c, i :: 0 <= c < |r| && 0 <= i < |r[c]| ==> r[c][i].status == Board[c]
    ensures multiset(r[0]) + multiset(r[1]) + multiset(r[2]) == multiset(projects)
  {
    ColumnsPartition(projects, ProjectStatus);
    seq(|Board|, c requires 0 <= c < |Board| => Column(projects, ProjectStatus, Board[c]))
  }

  /**
   * `handleDragEnd`: the status change for the card `activeId` dropped on
   * `over`, if any. A move always names a known project and a new status for it,
   * and one is issued exactly when the drop is on another target whose column
   * differs from the project's own.
   */
  function HandleDragEnd(projects: seq<Project>, activeId: string, over: Option<Target>): (r: Option<Move>)
    ensures over.None? || (over.Some? && TargetId(over.value) == activeId) ==> r.None?
    ensures r.Some? ==> r.value.id == activeId
    ensures r.Some? ==> exists k :: 0 <= k < |projects| && projects[k].id == activeId && projects[k].status != r.value.status
    ensures r.Some? && over.value.ColumnTarget? ==> r.value.status == over.value.status
    ensures r.Some? && over.value.CardTarget? ==>
              exists k :: 0 <= k < |projects| && projects[k].id == over.value.id && projects[k].status == r.value.status
    ensures r.Some? <==> over.Some? && TargetId(over.value) != activeId
                         && FindById(projects, ProjectId, activeId).Some?
                         && Destination(projects, ProjectId, ProjectStatus, over.value).Some?
                         && ProjectStatus(FindById(projects, ProjectId, activeId).value) != Destination(projects, ProjectId, ProjectStatus, over.value).value
  {
    DragEnd(projects, ProjectId, ProjectStatus, activeId, over)
  }
}
