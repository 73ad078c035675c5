/**
 * `GET /api/reports/summary`: hours per project, and the five most overdue
 * unfinished tasks. The clock is the parameter `now`, in milliseconds, and a
 * due date is the first millisecond of its day.
 */
module Reports {
  import opened Wrappers
  import opened Calendar
  import opened Types
  import opened Seqs
  import UserRoutes

  /** One bar of the time analysis chart. */
  datatype TimeAnalysisRow = TimeAnalysisRow(name: string, est: int, used: int)

  /** One line of the overdue list; `days` is how many whole days have passed since the due date. */
  datatype OverdueRow = OverdueRow(id: string, name: string, project: string, days: int)

  function SumEst(ts: seq<PlanTask>): int {
    if ts == [] then 0 else ts[0].estHours + SumEst(ts[1..])
  }

  function SumUsed(ts: seq<PlanTask>): int {
    if ts == [] then 0 else ts[0].usedHours + SumUsed(ts[1..])
  }

  /** Whether a plan task is filed under the case code `c`. */
  function InCase(c: string): PlanTask -> bool {
    (t: PlanTask) => t.projectCase == c
  }

  /** The top-level plan tasks filed under the project's code. */
  function ProjectTasks(plan: seq<PlanTask>, p: Project): seq<PlanTask> {
    Filter(plan, InCase(p.caseCode))
  }

  function ProjectRow(plan: seq<PlanTask>, p: Project): TimeAnalysisRow {
    var ts := ProjectTasks(plan, p);
    TimeAnalysisRow(p.name, SumEst(ts), SumUsed(ts))
  }

  predicate HasHours(r: TimeAnalysisRow) {
    r.est > 0 || r.used > 0
  }

  function AllRows(projects: seq<Project>, plan: seq<PlanTask>): (r: seq<TimeAnalysisRow>)
    ensures |r| == |projects| && forall i :: 0 <= i < |projects| ==> r[i] == ProjectRow(plan, projects[i])
  {
    seq(|projects|, i requires 0 <= i < |projects| => ProjectRow(plan, projects[i]))
  }

  /** The per-project totals, in project order, keeping only projects with some hours. */
  function TimeAnalysis(projects: seq<Project>, plan: seq<PlanTask>): (r: seq<TimeAnalysisRow>)
    ensures forall i :: 0 <= i < |r| ==> HasHours(r[i])
  {
    Filter(AllRows(projects, plan), HasHours)
  }

  /**
   * Every project with hours has its row in the analysis, as often as the
   * project rows hold it, and the rows keep the project order.
   */
  lemma TimeAnalysisComplete(projects: seq<Project>, plan: seq<PlanTask>)
    ensures Subseq(TimeAnalysis(projects, plan), AllRows(projects, plan))
    ensures forall i :: 0 <= i < |projects| && HasHours(ProjectRow(plan, projects[i])) ==>
              ProjectRow(plan, projects[i]) in TimeAnalysis(projects, plan)
    ensures forall x :: multiset(TimeAnalysis(projects, plan))[x]
                        == if HasHours(x) then multiset(AllRows(projects, plan))[x] else 0
  {
    var all := AllRows(projects, plan);
    assert forall i :: 0 <= i < |projects| ==> all[i] == ProjectRow(plan, projects[i]);
    FilterCounts(all, HasHours);
  }

  /** Two lists of top-level tasks that agree position by position on case code and hours. */
  predicate SameTopLevel(a: seq<PlanTask>, b: seq<PlanTask>) {
    |a| == |b| && forall i :: 0 <= i < |a| ==>
      a[i].projectCase == b[i].projectCase && a[i].estHours == b[i].estHours && a[i].usedHours == b[i].usedHours
  }

  lemma {:induction false} CaseSumsAgree(a: seq<PlanTask>, b: seq<PlanTask>, c: string)
    requires SameTopLevel(a, b)
    ensures SumEst(Filter(a, InCase(c))) == SumEst(Filter(b, InCase(c)))
    ensures SumUsed(Filter(a, InCase(c))) == SumUsed(Filter(b, InCase(c)))
  {
    if a != [] {
      assert SameTopLevel(a[1..], b[1..]);
      CaseSumsAgree(a[1..], b[1..], c);
      assert a == [a[0]] + a[1..] && b == [b[0]] + b[1..];
      CaseSumsStep(a[0], b[0], a[1..], b[1..], c);
    }
  }

  /** Agreeing first tasks keep the case sums of two agreeing rests equal. */
  lemma CaseSumsStep(x: PlanTask, y: PlanTask, ra: seq<PlanTask>, rb: seq<PlanTask>, c: string)
    requires x.projectCase == y.projectCase && x.estHours == y.estHours && x.usedHours == y.usedHours
    requires SumEst(Filter(ra, InCase(c))) == SumEst(Filter(rb, InCase(c)))
    requires SumUsed(Filter(ra, InCase(c))) == SumUsed(Filter(rb, InCase(c)))
    ensures SumEst(Filter([x] + ra, InCase(c))) == SumEst(Filter([y] + rb, InCase(c)))
    ensures SumUsed(Filter([x] + ra, InCase(c))) == SumUsed(Filter([y] + rb, InCase(c)))
  {
    FilterCons(x, ra, InCase(c));
    FilterCons(y, rb, InCase(c));
    var fa, fb := Filter(ra, InCase(c)), Filter(rb, InCase(c));
    if x.projectCase == c {
      SumsCons(x, fa);
      SumsCons(y, fb);
    }
  }

  lemma SumsCons(x: PlanTask, s: seq<PlanTask>)
    ensures SumEst([x] + s) == x.estHours + SumEst(s)
    ensures SumUsed([x] + s) == x.usedHours + SumUsed(s)
  {
    assert ([x] + s)[1..] == s;
  }

  /**
   * Only top-level tasks count: hours recorded on subtasks are not added to
   * their project, so plans that differ only below the top level give the
   * same analysis.
   */
  lemma TimeAnalysisTopLevelOnly(projects: seq<Project>, a: seq<PlanTask>, b: seq<PlanTask>)
    requires SameTopLevel(a, b)
    ensures TimeAnalysis(projects, a) == TimeAnalysis(projects, b)
  {
    forall p: Project | p in projects
      ensures ProjectRow(a, p) == ProjectRow(b, p)
    {
      CaseSumsAgree(a, b, p.caseCode);
    }
    assert AllRows(projects, a) == AllRows(projects, b);
  }

  /** Not done, and due before the current instant. */
  predicate IsOverdue(t: Task, now: int) {
    t.status != Done && t.dueDate * MsPerDay < now
  }

  function Late(now: int): Task -> bool {
    (t: Task) => IsOverdue(t, now)
  }

  /** `differenceInDays(now, due)`: whole days elapsed, rounded toward zero. */
  function DaysSince(due: Day, now: int): int {
    var diff := now - due * MsPerDay;
    if diff >= 0 then diff / MsPerDay else -((-diff) / MsPerDay)
  }

  function OverdueRowOf(t: Task, projects: seq<Project>, now: int): OverdueRow {
    OverdueRow(t.id, t.name, UserRoutes.ProjectNameOr(projects, t.projectId, "Unknown"), DaysSince(t.dueDate, now))
  }

  function OverdueRows(tasks: seq<Task>, projects: seq<Project>, now: int): (r: seq<OverdueRow>)
    ensures |r| == |Filter(tasks, Late(now))|
    ensures forall i :: 0 <= i < |r| ==> r[i] == OverdueRowOf(Filter(tasks, Late(now))[i], projects, now)
  {
    var late := Filter(tasks, Late(now));
    seq(|late|, i requires 0 <= i < |late| => OverdueRowOf(late[i], projects, now))
  }

  /** Rows in order of non-increasing `days`. */
  predicate SortedDesc(s: seq<OverdueRow>) {
    forall i, j :: 0 <= i < j < |s| ==> s[i].days >= s[j].days
  }

  predicate AtMost(s: seq<OverdueRow>, v: int) {
    forall i :: 0 <= i < |s| ==> s[i].days <= v
  }

  lemma SortedCons(x: OverdueRow, s: seq<OverdueRow>)
    ensures SortedDesc([x] + s) <==> SortedDesc(s) && AtMost(s, x.days)
  {
    var r := [x] + s;
    assert forall i :: 0 <= i < |s| ==> r[i + 1] == s[i];
    if SortedDesc(r) {
      forall i, j | 0 <= i < j < |s|
        ensures s[i].days >= s[j].days
      {
        assert r[i + 1] == s[i] && r[j + 1] == s[j];
      }
      forall i | 0 <= i < |s|
        ensures s[i].days <= x.days
      {
        assert r[0] == x && r[i + 1] == s[i];
      }
    }
    if SortedDesc(s) && AtMost(s, x.days) {
      forall i, j | 0 <= i < j < |r|
        ensures r[i].days >= r[j].days
      {
        if i > 0 {
          assert r[i] == s[i - 1] && r[j] == s[j - 1];
        }
      }
    }
  }

  /** Insert `x` before the first row that is not more overdue than it. */
  function InsertDesc(x: OverdueRow, s: seq<OverdueRow>): seq<OverdueRow> {
    if s == [] || s[0].days <= x.days then [x] + s
    else [s[0]] + InsertDesc(x, s[1..])
  }

  lemma {:induction false} InsertDescPerm(x: OverdueRow, s: seq<OverdueRow>)
    ensures multiset(InsertDesc(x, s)) == multiset(s) + multiset{x}
  {
    if !(s == [] || s[0].days <= x.days) {
      InsertDescPerm(x, s[1..]);
      assert s == [s[0]] + s[1..];
    }
  }

  lemma {:induction false} InsertDescSorted(x: OverdueRow, s: seq<OverdueRow>)
    requires SortedDesc(s)
    ensures SortedDesc(InsertDesc(x, s))
    ensures forall v :: AtMost(s, v) && x.days <= v ==> AtMost(InsertDesc(x, s), v)
  {
    InsertDescPerm(x, s);
    forall v | AtMost(s, v) && x.days <= v
      ensures AtMost(InsertDesc(x, s), v)
    {
      var r := InsertDesc(x, s);
      forall i | 0 <= i < |r|
        ensures r[i].days <= v
      {
        assert r[i] in multiset(r);
      }
    }
    if s == [] || s[0].days <= x.days {
      SortedCons(x, s);
    } else {
      assert s == [s[0]] + s[1..];
      SortedCons(s[0], s[1..]);
      InsertDescSorted(x, s[1..]);
      SortedCons(s[0], InsertDesc(x, s[1..]));
    }
  }

  /**
   * `sort((a, b) => b.days - a.days)`: the most overdue first. The array sort
   * is stable, so rows with the same `days` keep their order.
   */
  function SortDesc(s: seq<OverdueRow>): seq<OverdueRow> {
    if s == [] then [] else InsertDesc(s[0], SortDesc(s[1..]))
  }

  /** The sort returns a non-increasing permutation of its input. */
  lemma {:induction false} SortDescSortedPerm(s: seq<OverdueRow>)
    ensures SortedDesc(SortDesc(s))
    ensures multiset(SortDesc(s)) == multiset(s)
  {
    if s != [] {
      SortDescSortedPerm(s[1..]);
      InsertDescSorted(s[0], SortDesc(s[1..]));
      InsertDescPerm(s[0], SortDesc(s[1..]));
      assert s == [s[0]] + s[1..];
    }
  }

  /** Whether a row is exactly `d` days overdue. */
  function DaysAre(d: int): OverdueRow -> bool {
    (r: OverdueRow) => r.days == d
  }

  lemma {:induction false} InsertDescStable(x: OverdueRow, s: seq<OverdueRow>, d: int)
    ensures Filter(InsertDesc(x, s), DaysAre(d))
         == if x.days == d then [x] + Filter(s, DaysAre(d)) else Filter(s, DaysAre(d))
  {
    if s == [] || s[0].days <= x.days {
      FilterCons(x, s, DaysAre(d));
    } else {
      var y, tail := s[0], s[1..];
      var rest := InsertDesc(x, tail);
      assert InsertDesc(x, s) == [y] + rest;
      assert s == [y] + tail;
      InsertDescStable(x, tail, d);
      FilterCons(y, rest, DaysAre(d));
      FilterCons(y, tail, DaysAre(d));
      StableStep(x, y, rest, tail, d);
    }
  }

  lemma StableStep(x: OverdueRow, y: OverdueRow, rest: seq<OverdueRow>, tail: seq<OverdueRow>, d: int)
    requires x.days < y.days
    requires Filter(rest, DaysAre(d)) == if x.days == d then [x] + Filter(tail, DaysAre(d)) else Filter(tail, DaysAre(d))
    requires Filter([y] + rest, DaysAre(d)) == if y.days == d then [y] + Filter(rest, DaysAre(d)) else Filter(rest, DaysAre(d))
    requires Filter([y] + tail, DaysAre(d)) == if y.days == d then [y] + Filter(tail, DaysAre(d)) else Filter(tail, DaysAre(d))
    ensures Filter([y] + rest, DaysAre(d))
         == if x.days == d then [x] + Filter([y] + tail, DaysAre(d)) else Filter([y] + tail, DaysAre(d))
  {
    if y.days == d {
      assert x.days != d;
    }
  }

  /** Sorting is stable: the rows with any given `days` value keep their relative order. */
  lemma {:induction false} SortDescStable(s: seq<OverdueRow>, d: int)
    ensures Filter(SortDesc(s), DaysAre(d)) == Filter(s, DaysAre(d))
  {
    if s != [] {
      SortDescStable(s[1..], d);
      InsertDescStable(s[0], SortDesc(s[1..]), d);
      assert s == [s[0]] + s[1..];
      FilterCons(s[0], s[1..], DaysAre(d));
    }
  }

  function Min(a: int, b: int): int {
    if a <= b then a else b
  }

  /** The overdue list of the summary: the five most overdue unfinished tasks, most overdue first. */
  function OverdueTasks(tasks: seq<Task>, projects: seq<Project>, now: int): (r: seq<OverdueRow>)
    ensures |r| == Min(5, |Filter(tasks, Late(now))|)
    ensures SortedDesc(r)
    ensures multiset(r) <= multiset(OverdueRows(tasks, projects, now))
  {
    var all := OverdueRows(tasks, projects, now);
    SortDescSortedPerm(all);
    var sorted := SortDesc(all);
    PrefixOf(sorted, Min(5, |sorted|));
    sorted[..Min(5, |sorted|)]
  }

  lemma PrefixOf(s: seq<OverdueRow>, n: nat)
    requires SortedDesc(s) && n <= |s|
    ensures SortedDesc(s[..n]) && multiset(s[..n]) <= multiset(s)
  {
    assert s == s[..n] + s[n..];
  }

  /** In a non-increasing list, nothing after a prefix is larger than anything in it. */
  lemma PrefixDominates(sorted: seq<OverdueRow>, n: nat)
    requires SortedDesc(sorted) && n <= |sorted|
    ensures forall x :: x in multiset(sorted) - multiset(sorted[..n]) ==> forall i :: 0 <= i < n ==> x.days <= sorted[i].days
  {
    var rest := sorted[n..];
    assert sorted == sorted[..n] + rest;
    assert multiset(sorted) - multiset(sorted[..n]) == multiset(rest);
    forall x: OverdueRow | x in multiset(rest)
      ensures forall i :: 0 <= i < n ==> x.days <= sorted[i].days
    {
      var j :| 0 <= j < |rest| && rest[j] == x;
      assert sorted[n + j] == x;
    }
  }

  /** No overdue row left out of the list is more overdue than one that made it. */
  lemma OverdueTasksAreTheMostOverdue(tasks: seq<Task>, projects: seq<Project>, now: int)
    ensures var all, r := OverdueRows(tasks, projects, now), OverdueTasks(tasks, projects, now);
            forall x :: x in multiset(all) - multiset(r) ==> forall i :: 0 <= i < |r| ==> x.days <= r[i].days
  {
    var all := OverdueRows(tasks, projects, now);
    SortDescSortedPerm(all);
    var sorted := SortDesc(all);
    PrefixDominates(sorted, Min(5, |sorted|));
  }

  /** Every row of the overdue list belongs to an unfinished task due before now, and its day count is never negative: a task due less than a day ago shows 0. */
  lemma OverdueRowsAreOverdue(tasks: seq<Task>, projects: seq<Project>, now: int)
    ensures forall x :: x in OverdueRows(tasks, projects, now) ==>
              exists t :: t in tasks && IsOverdue(t, now) && x == OverdueRowOf(t, projects, now)
    ensures forall x :: x in OverdueRows(tasks, projects, now) ==> x.days >= 0
  {
    var late := Filter(tasks, Late(now));
    forall x | x in OverdueRows(tasks, projects, now)
      ensures exists t :: t in tasks && IsOverdue(t, now) && x == OverdueRowOf(t, projects, now)
      ensures x.days >= 0
    {
      var i :| 0 <= i < |late| && OverdueRows(tasks, projects, now)[i] == x;
      assert late[i] in tasks && IsOverdue(late[i], now);
    }
  }
}
