/**
 * What the task list page and the project list page share: the `view` URL
 * parameter choosing between the table and the board, and the search box
 * matching a field without regard to case.
 */
module ListPage {
  import opened Wrappers
  import opened Types
  import opened Strings

  /** `searchParams.get('view') || 'table'`: a missing or empty parameter means the table. */
  function ViewMode(param: Option<string>): (r: string)
    ensures !Truthy(param) ==> r == "table"
    ensures Truthy(param) ==> r == param.value
    ensures r != ""
  {
    if Truthy(param) then param.value else "table"
  }

  datatype Content = Table | Board

  /** The table is shown for the mode `'table'`, the board for any other. */
  function ContentFor(param: Option<string>): (r: Content)
    ensures r == Table <==> param.None? || param.value == "" || param.value == "table"
  {
    if ViewMode(param) == "table" then Table else Board
  }

  /** `field.toLowerCase().includes(query.toLowerCase())`. */
  predicate Matches(field: string, query: string) {
    Includes(ToLower(field), ToLower(query))
  }

  /** The empty query matches every field. */
  lemma EmptyQueryMatches(field: string)
    ensures Matches(field, "")
  {
    assert ToLower("") == "";
    IncludesEmpty(ToLower(field));
  }

  /** Lower-casing twice is lower-casing once. */
  lemma LowerTwice(s: string)
    ensures ToLower(ToLower(s)) == ToLower(s)
  {
  }

  /** The match does not depend on the case of the field or of the query. */
  lemma MatchIgnoresCase(field: string, query: string)
    ensures Matches(ToLower(field), query) == Matches(field, query)
    ensures Matches(field, ToLower(query)) == Matches(field, query)
  {
    LowerTwice(field);
    LowerTwice(query);
  }

  /** A query that occurs in the field as typed matches it. */
  lemma OccurrenceMatches(field: string, query: string)
    requires Includes(field, query)
    ensures Matches(field, query)
  {
    var i :| 0 <= i <= |field| - |query| && OccursAt(field, query, i);
    assert ToLower(field)[i..i + |query|] == ToLower(query) by {
      forall j | 0 <= j < |query|
        ensures ToLower(field)[i..i + |query|][j] == ToLower(query)[j]
      {
        assert field[i + j] == field[i..i + |query|][j] == query[j];
      }
    }
    assert OccursAt(ToLower(field), ToLower(query), i);
  }
}
