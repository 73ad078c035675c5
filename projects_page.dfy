/**
 * `src/pages/ProjectsPage.tsx`: the project list, narrowed by the header's search
 * box and shown as a table or as the board.
 */
module ProjectsPage {
  import opened Wrappers
  import opened Types
  import opened Seqs
  import opened ListPage

  /** A project is kept when its name or its case code matches the query. */
  predicate Kept(query: string, p: Project) {
    Matches(p.name, query) || Matches(p.caseCode, query)
  }

  /** Every project matches the empty query. */
  lemma AllKeptByEmptyQuery(projects: seq<Project>)
    ensures forall i :: 0 <= i < |projects| ==> Kept("", projects[i])
  {
    forall i | 0 <= i < |projects|
      ensures Kept("", projects[i])
    {
      EmptyQueryMatches(projects[i].name);
    }
  }

  /**
   * `filteredProjects`: nothing before the data arrives; then the projects that
   * match, in their order, which is every project for the empty query.
   */
  function FilteredProjects(data: Option<seq<Project>>, query: string): (r: seq<Project>)
    ensures data.None? ==> r == []
    ensures data.Some? ==> Subseq(r, data.value)
    ensures forall i :: 0 <= i < |r| ==> Kept(query, r[i])
    ensures data.Some? ==> forall i :: 0 <= i < |data.value| && Kept(query, data.value[i]) ==> data.value[i] in r
    ensures data.Some? ==> forall x :: multiset(r)[x] == if Kept(query, x) then multiset(data.value)[x] else 0
    ensures data.Some? && query == "" ==> r == data.value
  {
    match data
    case None => []
    case Some(projects) =>
      AllKeptByEmptyQuery(projects);
      FilterCounts(projects, x => Kept(query, x));
      if query == "" then FilterAll(projects, x => Kept(query, x)); Filter(projects, x => Kept(query, x))
      else Filter(projects, x => Kept(query, x))
  }
}
