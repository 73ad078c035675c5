/**
 * `src/pages/TasksPage.tsx`: the task list, narrowed by the header's search
 * box and shown as a table or as the board.
 */
module TasksPage {
  import opened Wrappers
  import opened Types
  import opened Seqs
  import opened ListPage

  /** A row is kept when its task name or its project name matches the query. */
  predicate Kept(query: string, r: TaskRow) {
    Matches(r.task.name, query) || Matches(r.projectName, query)
  }

  /** Every row matches the empty query. */
  lemma AllKeptByEmptyQuery(rows: seq<TaskRow>)
    ensures forall i :: 0 <= i < |rows| ==> Kept("", rows[i])
  {
    forall i | 0 <= i < |rows|
      ensures Kept("", rows[i])
    {
      EmptyQueryMatches(rows[i].task.name);
    }
  }

  /**
   * `filteredTasks`: nothing before the data arrives; then the rows that
   * match, in their order, which is every row for the empty query.
   */
  function FilteredTasks(data: Option<seq<TaskRow>>, query: string): (r: seq<TaskRow>)
    ensures data.None? ==> r == []
    ensures data.Some? ==> Subseq(r, data.value)
    ensures forall i :: 0 <= i < |r| ==> Kept(query, r[i])
    ensures data.Some? ==> forall i :: 0 <= i < |data.value| && Kept(query, data.value[i]) ==> data.value[i] in r
    ensures data.Some? ==> forall x :: multiset(r)[x] == if Kept(query, x) then multiset(data.value)[x] else 0
    ensures data.Some? && query == "" ==> r == data.value
  {
    match data
    case None => []
    case Some(rows) =>
      AllKeptByEmptyQuery(rows);
      FilterCounts(rows, x => Kept(query, x));
      if query == "" then FilterAll(rows, x => Kept(query, x)); Filter(rows, x => Kept(query, x))
      else Filter(rows, x => Kept(query, x))
  }
}
