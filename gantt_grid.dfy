/**
 * `src/components/plan/GanttGrid.tsx`: the table half of the plan. Rows are
 * rendered recursively; each row's WBS label is positional ("1", "1.2",
 * "1.2.3", …) whatever the task's stored `wbs`, its indentation level is its
 * depth, and a collapsed row hides its whole subtree. Which rows are collapsed
 * is the set of their task ids.
 */
module GanttGrid {
  import opened Wrappers
  import opened Types
  import opened Strings
  import opened Seqs
  import opened PlanTree

  /** Background band of a row: `bg-blue-50`, `bg-green-50`, `bg-white`. */
  datatype Band = Blue | Green | White

  /**
   * `getWbsBandClass`: blue for a missing or empty label, otherwise by the
   * number of dots in it: none blue, one green, more white.
   */
  function BandClass(wbs: Option<string>): (b: Band)
    ensures !Truthy(wbs) ==> b == Blue
    ensures Truthy(wbs) ==>
      b == (if Count(wbs.value, '.') == 0 then Blue else if Count(wbs.value, '.') == 1 then Green else White)
  {
    if !Truthy(wbs) then Blue
    else
      var pieces := |Split(wbs.value, '.')|;
      var level := if pieces - 1 > 0 then pieces - 1 else 0;
      if level == 0 then Blue else if level == 1 then Green else White
  }

  /** The positional label of the `position`-th child (from 1) under `parent`, or of a root task. */
  function Label(parent: Option<string>, position: nat): string {
    match parent
    case None => NatToString(position)
    case Some(w) => w + "." + NatToString(position)
  }

  /** `(est ?? 0) - (used ?? 0)`, which goes negative when more hours were used than estimated. */
  function Remaining(t: PlanTask): int {
    t.estHours - t.usedHours
  }

  /** One rendered row of the grid. */
  datatype GridRow = GridRow(task: PlanTask, level: nat, wbs: string, hasToggle: bool, expanded: bool,
                             band: Band, remaining: int)

  /** The rows of the siblings `ts`, the first of them at position `offset + 1` under `parent`. */
  function RowsOf(ts: seq<PlanTask>, parent: Option<string>, offset: nat, level: nat, collapsed: set<string>)
    : seq<GridRow>
    decreases ts
  {
    if ts == [] then []
    else RowNode(ts[0], Label(parent, offset + 1), level, collapsed)
         + RowsOf(ts[1..], parent, offset + 1, level, collapsed)
  }

  /** The row of `t` followed, while it is expanded, by the rows of its children. */
  function RowNode(t: PlanTask, wbs: string, level: nat, collapsed: set<string>): seq<GridRow>
    decreases t
  {
    var expanded := t.id !in collapsed;
    [GridRow(t, level, wbs, Children(t) != [], expanded, BandClass(Some(wbs)), Remaining(t))]
    + if !expanded then []
      else match t.subTasks
           case NoSubTasks => []
           case SubTasks(cs) => RowsOf(cs, Some(wbs), 0, level + 1, collapsed)
  }

  /** The whole grid: root tasks numbered from 1 at level 0. */
  function GridRows(ts: seq<PlanTask>, collapsed: set<string>): seq<GridRow> {
    RowsOf(ts, None, 0, 0, collapsed)
  }

  lemma RowsOfCons(ts: seq<PlanTask>, parent: Option<string>, offset: nat, level: nat, collapsed: set<string>)
    requires ts != []
    ensures RowsOf(ts, parent, offset, level, collapsed)
         == RowNode(ts[0], Label(parent, offset + 1), level, collapsed) + RowsOf(ts[1..], parent, offset + 1, level, collapsed)
  {
  }

  lemma RowsOfSingle(t: PlanTask, parent: Option<string>, offset: nat, level: nat, collapsed: set<string>)
    ensures RowsOf([t], parent, offset, level, collapsed) == RowNode(t, Label(parent, offset + 1), level, collapsed)
  {
    assert [t][1..] == [];
  }

  /** The rows of two sibling lists in a row: the second list is numbered on from where the first stops. */
  lemma RowsAppend(a: seq<PlanTask>, b: seq<PlanTask>, parent: Option<string>, offset: nat,
                   level: nat, collapsed: set<string>)
    ensures RowsOf(a + b, parent, offset, level, collapsed)
         == RowsOf(a, parent, offset, level, collapsed) + RowsOf(b, parent, offset + |a|, level, collapsed)
  {
    RowsAppendAt(a, b, parent, offset, offset + |a|, level, collapsed);
  }

  lemma {:induction false} RowsAppendAt(a: seq<PlanTask>, b: seq<PlanTask>, parent: Option<string>, offset: nat,
                                        next: nat, level: nat, collapsed: set<string>)
    requires next == offset + |a|
    ensures RowsOf(a + b, parent, offset, level, collapsed)
         == RowsOf(a, parent, offset, level, collapsed) + RowsOf(b, parent, next, level, collapsed)
    decreases a
  {
    if a == [] {
      assert a + b == b;
    } else {
      RowsConsAppend(a, b, parent, offset, level, collapsed);
      RowsAppendAt(a[1..], b, parent, offset + 1, next, level, collapsed);
      RowsOfCons(a, parent, offset, level, collapsed);
      Reassociate(RowsOf(a + b, parent, offset, level, collapsed),
                  RowNode(a[0], Label(parent, offset + 1), level, collapsed),
                  RowsOf(a[1..] + b, parent, offset + 1, level, collapsed),
                  RowsOf(a[1..], parent, offset + 1, level, collapsed),
                  RowsOf(b, parent, next, level, collapsed),
                  RowsOf(a, parent, offset, level, collapsed));
    }
  }

  lemma RowsConsAppend(a: seq<PlanTask>, b: seq<PlanTask>, parent: Option<string>, offset: nat, level: nat,
                       collapsed: set<string>)
    requires a != []
    ensures RowsOf(a + b, parent, offset, level, collapsed)
         == RowNode(a[0], Label(parent, offset + 1), level, collapsed) + RowsOf(a[1..] + b, parent, offset + 1, level, collapsed)
  {
    assert (a + b)[0] == a[0] && (a + b)[1..] == a[1..] + b;
    RowsOfCons(a + b, parent, offset, level, collapsed);
  }

  lemma Reassociate<T>(x: seq<T>, a: seq<T>, y: seq<T>, b: seq<T>, c: seq<T>, z: seq<T>)
    requires x == a + y && y == b + c && z == a + b
    ensures x == z + c
  {
  }

  /** A task appended to a sibling list gets the next position's label. */
  lemma RowsSnoc(ts: seq<PlanTask>, t: PlanTask, parent: Option<string>, offset: nat, level: nat,
                 collapsed: set<string>)
    ensures RowsOf(ts + [t], parent, offset, level, collapsed)
         == RowsOf(ts, parent, offset, level, collapsed) + RowNode(t, Label(parent, offset + |ts| + 1), level, collapsed)
  {
    RowsAppend(ts, [t], parent, offset, level, collapsed);
    RowsOfSingle(t, parent, offset + |ts|, level, collapsed);
  }

  /**
   * Numbering is positional: the `i`-th of a list of siblings is labelled
   * `i + 1` under its parent's label, after the rows of its elder siblings,
   * whatever `wbs` the task has stored.
   */
  lemma {:induction false} SiblingLabel(ts: seq<PlanTask>, parent: Option<string>, level: nat, collapsed: set<string>,
                                        i: nat)
    requires i < |ts|
    ensures RowsOf(ts, parent, 0, level, collapsed)
         == RowsOf(ts[..i], parent, 0, level, collapsed) + RowNode(ts[i], Label(parent, i + 1), level, collapsed)
            + RowsOf(ts[i + 1..], parent, i + 1, level, collapsed)
    ensures RowNode(ts[i], Label(parent, i + 1), level, collapsed)[0].wbs == Label(parent, i + 1)
  {
    RowsSplitAt(ts, parent, level, collapsed, i);
    RowsFrom(ts, parent, level, collapsed, i);
    Reassociate(RowsOf(ts, parent, 0, level, collapsed), RowsOf(ts[..i], parent, 0, level, collapsed),
                RowsOf(ts[i..], parent, i, level, collapsed), RowNode(ts[i], Label(parent, i + 1), level, collapsed),
                RowsOf(ts[i + 1..], parent, i + 1, level, collapsed),
                RowsOf(ts[..i], parent, 0, level, collapsed) + RowNode(ts[i], Label(parent, i + 1), level, collapsed));
  }

  lemma RowsSplitAt(ts: seq<PlanTask>, parent: Option<string>, level: nat, collapsed: set<string>, i: nat)
    requires i <= |ts|
    ensures RowsOf(ts, parent, 0, level, collapsed)
         == RowsOf(ts[..i], parent, 0, level, collapsed) + RowsOf(ts[i..], parent, i, level, collapsed)
  {
    assert ts[..i] + ts[i..] == ts;
    RowsAppend(ts[..i], ts[i..], parent, 0, level, collapsed);
  }

  lemma RowsFrom(ts: seq<PlanTask>, parent: Option<string>, level: nat, collapsed: set<string>, i: nat)
    requires i < |ts|
    ensures RowsOf(ts[i..], parent, i, level, collapsed)
         == RowNode(ts[i], Label(parent, i + 1), level, collapsed) + RowsOf(ts[i + 1..], parent, i + 1, level, collapsed)
  {
    assert ts[i..][0] == ts[i] && ts[i..][1..] == ts[i + 1..];
    RowsOfCons(ts[i..], parent, i, level, collapsed);
  }

  /** A row seen as an outline row: the task without children and the level. */
  function View(rows: seq<GridRow>): (r: seq<Row>)
    ensures |r| == |rows|
    ensures forall i :: 0 <= i < |rows| ==> r[i] == Row(Strip(rows[i].task), rows[i].level)
  {
    seq(|rows|, i requires 0 <= i < |rows| => Row(Strip(rows[i].task), rows[i].level))
  }

  lemma ViewConcat(a: seq<GridRow>, b: seq<GridRow>)
    ensures View(a + b) == View(a) + View(b)
  {
  }

  /** With nothing collapsed the grid shows the whole tree in pre-order, each row at its depth. */
  lemma {:induction false} RowsExpanded(ts: seq<PlanTask>, parent: Option<string>, offset: nat, level: nat)
    ensures View(RowsOf(ts, parent, offset, level, {})) == Outline(ts, level)
    decreases ts
  {
    if ts != [] {
      var w := Label(parent, offset + 1);
      RowNodeExpanded(ts[0], w, level);
      RowsExpanded(ts[1..], parent, offset + 1, level);
      ViewConcat(RowNode(ts[0], w, level, {}), RowsOf(ts[1..], parent, offset + 1, level, {}));
    }
  }

  lemma {:induction false} RowNodeExpanded(t: PlanTask, wbs: string, level: nat)
    ensures View(RowNode(t, wbs, level, {})) == OutlineNode(t, level)
    decreases t
  {
    var head := [GridRow(t, level, wbs, Children(t) != [], true, BandClass(Some(wbs)), Remaining(t))];
    match t.subTasks
    case NoSubTasks =>
    case SubTasks(cs) =>
      RowsExpanded(cs, Some(wbs), 0, level + 1);
      ViewConcat(head, RowsOf(cs, Some(wbs), 0, level + 1, {}));
  }

  /** The expanded grid is the outline the rest of the plan uses. */
  lemma GridAllExpanded(ts: seq<PlanTask>)
    ensures View(GridRows(ts, {})) == Outline(ts, 0)
  {
    RowsExpanded(ts, None, 0, 0);
  }

  /** Collapsing rows only hides rows: what is shown is an order-preserving part of the full outline. */
  lemma {:induction false} RowsCollapsed(ts: seq<PlanTask>, parent: Option<string>, offset: nat, level: nat,
                                         collapsed: set<string>)
    ensures Subseq(View(RowsOf(ts, parent, offset, level, collapsed)), Outline(ts, level))
    decreases ts
  {
    if ts == [] {
      SubseqRefl(View([]));
    } else {
      var w := Label(parent, offset + 1);
      var a := RowNode(ts[0], w, level, collapsed);
      var b := RowsOf(ts[1..], parent, offset + 1, level, collapsed);
      RowNodeCollapsed(ts[0], w, level, collapsed);
      RowsCollapsed(ts[1..], parent, offset + 1, level, collapsed);
      ViewConcat(a, b);
      SubseqConcat(View(a), OutlineNode(ts[0], level), View(b), Outline(ts[1..], level));
    }
  }

  lemma {:induction false} RowNodeCollapsed(t: PlanTask, wbs: string, level: nat, collapsed: set<string>)
    ensures Subseq(View(RowNode(t, wbs, level, collapsed)), OutlineNode(t, level))
    ensures t.id in collapsed ==> |RowNode(t, wbs, level, collapsed)| == 1
    decreases t
  {
    var head := [GridRow(t, level, wbs, Children(t) != [], t.id !in collapsed, BandClass(Some(wbs)), Remaining(t))];
    var top := [Row(Strip(t), level)];
    assert View(head) == top;
    var rest := Outline(Children(t), level + 1);
    OutlineNodeUnfold(t, level);
    if t.id in collapsed {
      SubseqRefl(top);
      SubseqPrepend([], rest, []);
      SubseqConcat(top, top, [], rest);
      assert View(RowNode(t, wbs, level, collapsed)) == top + [];
    } else {
      match t.subTasks
      case NoSubTasks =>
        SubseqRefl(top);
        assert rest == [];
      case SubTasks(cs) =>
        var kids := RowsOf(cs, Some(wbs), 0, level + 1, collapsed);
        RowsCollapsed(cs, Some(wbs), 0, level + 1, collapsed);
        ViewConcat(head, kids);
        SubseqRefl(top);
        SubseqConcat(top, top, View(kids), rest);
    }
  }

  /** A collapsed row keeps itself and hides its whole subtree. */
  lemma CollapsedShowsOnlyItself(t: PlanTask, wbs: string, level: nat, collapsed: set<string>)
    requires t.id in collapsed
    ensures RowNode(t, wbs, level, collapsed)
         == [GridRow(t, level, wbs, Children(t) != [], false, BandClass(Some(wbs)), Remaining(t))]
  {
  }

  /** Every label is the text of a natural number. */
  lemma DigitsHaveNoDots(n: nat)
    ensures Count(NatToString(n), '.') == 0
  {
    CountAbsent(NatToString(n), '.');
  }

  /** Parents numbered consistently give children labels with one dot more. */
  predicate LabelFits(parent: Option<string>, level: nat) {
    match parent
    case None => level == 0
    case Some(w) => Count(w, '.') + 1 == level
  }

  lemma LabelDots(parent: Option<string>, position: nat, level: nat)
    requires LabelFits(parent, level)
    ensures Count(Label(parent, position), '.') == level
  {
    DigitsHaveNoDots(position);
    if parent.Some? {
      CountConcat(parent.value, ".", '.');
      CountConcat(parent.value + ".", NatToString(position), '.');
    }
  }

  /** A row's level is the number of dots of its label, whatever is collapsed. */
  lemma {:induction false} RowsLevels(ts: seq<PlanTask>, parent: Option<string>, offset: nat, level: nat,
                                      collapsed: set<string>)
    requires LabelFits(parent, level)
    ensures forall r | r in RowsOf(ts, parent, offset, level, collapsed) :: Count(r.wbs, '.') == r.level
    decreases ts
  {
    if ts != [] {
      var w := Label(parent, offset + 1);
      LabelDots(parent, offset + 1, level);
      RowNodeLevels(ts[0], w, level, collapsed);
      RowsLevels(ts[1..], parent, offset + 1, level, collapsed);
    }
  }

  lemma {:induction false} RowNodeLevels(t: PlanTask, wbs: string, level: nat, collapsed: set<string>)
    requires Count(wbs, '.') == level
    ensures forall r | r in RowNode(t, wbs, level, collapsed) :: Count(r.wbs, '.') == r.level
    decreases t
  {
    if t.id !in collapsed {
      match t.subTasks
      case NoSubTasks =>
      case SubTasks(cs) =>
        RowsLevels(cs, Some(wbs), 0, level + 1, collapsed);
    }
  }

  /**
   * In the grid a row's level is the number of dots of its label, so its band
   * is blue at the root, green one level down and white below that.
   */
  lemma GridLevelsAndBands(ts: seq<PlanTask>, collapsed: set<string>)
    ensures forall r | r in GridRows(ts, collapsed) ::
              Count(r.wbs, '.') == r.level
              && r.band == (if r.level == 0 then Blue else if r.level == 1 then Green else White)
  {
    RowsLevels(ts, None, 0, 0, collapsed);
    forall r | r in GridRows(ts, collapsed)
      ensures r.band == BandClass(Some(r.wbs))
    {
      RowsBands(ts, None, 0, 0, collapsed);
    }
  }

  lemma {:induction false} RowsBands(ts: seq<PlanTask>, parent: Option<string>, offset: nat, level: nat,
                                     collapsed: set<string>)
    ensures forall r | r in RowsOf(ts, parent, offset, level, collapsed) :: r.band == BandClass(Some(r.wbs))
    decreases ts
  {
    if ts != [] {
      RowNodeBands(ts[0], Label(parent, offset + 1), level, collapsed);
      RowsBands(ts[1..], parent, offset + 1, level, collapsed);
    }
  }

  lemma {:induction false} RowNodeBands(t: PlanTask, wbs: string, level: nat, collapsed: set<string>)
    ensures forall r | r in RowNode(t, wbs, level, collapsed) :: r.band == BandClass(Some(r.wbs))
    decreases t
  {
    if t.id !in collapsed {
      match t.subTasks
      case NoSubTasks =>
      case SubTasks(cs) =>
        RowsBands(cs, Some(wbs), 0, level + 1, collapsed);
    }
  }

  /**
   * Every row shows its task's estimate less its used hours, unclamped; has
   * an expand toggle exactly when the task has children; and is expanded
   * exactly when it is not collapsed.
   */
  lemma GridRowFields(ts: seq<PlanTask>, collapsed: set<string>)
    ensures forall r | r in GridRows(ts, collapsed) ::
              r.remaining == r.task.estHours - r.task.usedHours && r.hasToggle == (Children(r.task) != [])
              && r.expanded == (r.task.id !in collapsed)
  {
    RowsFields(ts, None, 0, 0, collapsed);
  }

  lemma {:induction false} RowsFields(ts: seq<PlanTask>, parent: Option<string>, offset: nat, level: nat,
                                      collapsed: set<string>)
    ensures forall r | r in RowsOf(ts, parent, offset, level, collapsed) ::
              r.remaining == r.task.estHours - r.task.usedHours && r.hasToggle == (Children(r.task) != [])
              && r.expanded == (r.task.id !in collapsed)
    decreases ts
  {
    if ts != [] {
      RowNodeFields(ts[0], Label(parent, offset + 1), level, collapsed);
      RowsFields(ts[1..], parent, offset + 1, level, collapsed);
    }
  }

  lemma {:induction false} RowNodeFields(t: PlanTask, wbs: string, level: nat, collapsed: set<string>)
    ensures forall r | r in RowNode(t, wbs, level, collapsed) ::
              r.remaining == r.task.estHours - r.task.usedHours && r.hasToggle == (Children(r.task) != [])
              && r.expanded == (r.task.id !in collapsed)
    decreases t
  {
    if t.id !in collapsed {
      match t.subTasks
      case NoSubTasks =>
      case SubTasks(cs) =>
        RowsFields(cs, Some(wbs), 0, level + 1, collapsed);
    }
  }

  /**
   * The grid hides what the timeline still draws: when a root task with
   * children is collapsed the grid has fewer rows than the tree has nodes,
   * while the timeline keeps one bar per node, so the two halves of the plan
   * no longer line up.
   */
  lemma GridShorterThanTimeline(ts: seq<PlanTask>, collapsed: set<string>, i: nat)
    requires i < |ts| && ts[i].id in collapsed && Children(ts[i]) != []
    ensures |GridRows(ts, collapsed)| < Size(ts)
  {
    var rows := GridRows(ts, collapsed);
    RowsCollapsed(ts, None, 0, 0, collapsed);
    OutlineShape(ts, 0);
    FlattenSize(ts);
    RowsShorter(ts, None, 0, 0, collapsed, i);
  }

  lemma {:induction false} SubseqLength<T>(a: seq<T>, b: seq<T>)
    requires Subseq(a, b)
    ensures |a| <= |b|
    decreases |b|
  {
    if a != [] {
      if a[0] == b[0] && Subseq(a[1..], b[1..]) {
        SubseqLength(a[1..], b[1..]);
      } else {
        SubseqLength(a, b[1..]);
      }
    }
  }

  lemma {:induction false} RowsShorter(ts: seq<PlanTask>, parent: Option<string>, offset: nat, level: nat,
                                       collapsed: set<string>, i: nat)
    requires i < |ts| && ts[i].id in collapsed && Children(ts[i]) != []
    ensures |RowsOf(ts, parent, offset, level, collapsed)| < |Outline(ts, level)|
    decreases ts
  {
    var w := Label(parent, offset + 1);
    var a := RowNode(ts[0], w, level, collapsed);
    var b := RowsOf(ts[1..], parent, offset + 1, level, collapsed);
    RowNodeCollapsed(ts[0], w, level, collapsed);
    SubseqLength(View(a), OutlineNode(ts[0], level));
    if i == 0 {
      OutlineNodeUnfold(ts[0], level);
      OutlineShape(Children(ts[0]), level + 1);
      FlattenSize(Children(ts[0]));
      assert |Outline(Children(ts[0]), level + 1)| > 0 by {
        assert Flatten(Children(ts[0]))[0] == Children(ts[0])[0] by {
          FlattenNodeUnfold(Children(ts[0])[0]);
        }
      }
      RowsCollapsed(ts[1..], parent, offset + 1, level, collapsed);
      SubseqLength(View(b), Outline(ts[1..], level));
    } else {
      RowsShorter(ts[1..], parent, offset + 1, level, collapsed, i - 1);
    }
  }

  /** The context-menu entries of a row. */
  datatype MenuItem = AddTaskItem | AddSubtaskItem | DeleteTaskItem

  /** What the grid asks the page to do. */
  datatype GridAction = AddTask(parentId: Option<string>) | DeleteTask(id: string)

  /** "Add Task" asks for a root task, "Add Subtask" for a child of the row, "Delete Task" deletes the row. */
  function MenuAction(item: MenuItem, row: GridRow): (a: GridAction)
    ensures a.AddTask? <==> item != DeleteTaskItem
    ensures item == AddTaskItem ==> a == AddTask(None)
    ensures item == AddSubtaskItem ==> a == AddTask(Some(row.task.id))
    ensures a.DeleteTask? ==> a.id == row.task.id
  {
    match item
    case AddTaskItem => AddTask(None)
    case AddSubtaskItem => AddTask(Some(row.task.id))
    case DeleteTaskItem => DeleteTask(row.task.id)
  }
}
