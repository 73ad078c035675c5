/**
 * The plan's work breakdown structure as a tree of `PlanTask` nodes, and the
 * tree walks the server and the views share: the pre-order flattening, the
 * first-match lookup of the server's `findTask`, the replacement of that first
 * match, and the recursive deletion of `deleteTaskRecursive`.
 *
 * `Outline` is the reference view of a tree used to say exactly which nodes an
 * operation changes: one row per node in pre-order, holding the node without
 * its children and its depth.
 */
module PlanTree {
  import opened Wrappers
  import opened Types
  import opened Seqs

  /* ---------------- pre-order ---------------- */

  /** Every node of the forest `ts`, each parent before its children. */
  function Flatten(ts: seq<PlanTask>): seq<PlanTask>
    decreases ts
  {
    if ts == [] then [] else FlattenNode(ts[0]) + Flatten(ts[1..])
  }

  function FlattenNode(t: PlanTask): seq<PlanTask>
    decreases t
  {
    [t] + match t.subTasks
          case NoSubTasks => []
          case SubTasks(cs) => Flatten(cs)
  }

  lemma FlattenNodeUnfold(t: PlanTask)
    ensures FlattenNode(t) == [t] + Flatten(Children(t))
  {
  }

  lemma {:induction false} FlattenConcat(a: seq<PlanTask>, b: seq<PlanTask>)
    ensures Flatten(a + b) == Flatten(a) + Flatten(b)
    decreases |a|
  {
    if a == [] {
      assert a + b == b;
    } else {
      assert (a + b)[0] == a[0];
      assert (a + b)[1..] == a[1..] + b;
      FlattenConcat(a[1..], b);
    }
  }

  lemma FlattenSingle(t: PlanTask)
    ensures Flatten([t]) == FlattenNode(t)
  {
    assert [t][1..] == [];
  }

  /** The number of nodes of a forest, counted independently of the flattening. */
  function Size(ts: seq<PlanTask>): nat
    decreases ts
  {
    if ts == [] then 0 else NodeSize(ts[0]) + Size(ts[1..])
  }

  function NodeSize(t: PlanTask): nat
    decreases t
  {
    1 + match t.subTasks
        case NoSubTasks => 0
        case SubTasks(cs) => Size(cs)
  }

  /** The flattening lists every node exactly once: its length is the node count. */
  lemma {:induction false} FlattenSize(ts: seq<PlanTask>)
    ensures |Flatten(ts)| == Size(ts)
    decreases ts
  {
    if ts != [] {
      FlattenNodeSize(ts[0]);
      FlattenSize(ts[1..]);
    }
  }

  lemma {:induction false} FlattenNodeSize(t: PlanTask)
    ensures |FlattenNode(t)| == NodeSize(t)
    decreases t
  {
    match t.subTasks
    case NoSubTasks =>
    case SubTasks(cs) => FlattenSize(cs);
  }

  /** The ids of a list of nodes, position by position. */
  function IdsOf(s: seq<PlanTask>): (r: seq<string>)
    ensures |r| == |s|
    ensures forall i :: 0 <= i < |s| ==> r[i] == s[i].id
  {
    seq(|s|, i requires 0 <= i < |s| => s[i].id)
  }

  lemma IdsOfConcat(a: seq<PlanTask>, b: seq<PlanTask>)
    ensures IdsOf(a + b) == IdsOf(a) + IdsOf(b)
  {
    assert forall i :: 0 <= i < |a| + |b| ==> IdsOf(a + b)[i] == (IdsOf(a) + IdsOf(b))[i];
  }

  /** Ids of the forest in pre-order. */
  function Ids(ts: seq<PlanTask>): seq<string> {
    IdsOf(Flatten(ts))
  }

  function NodeIds(t: PlanTask): seq<string> {
    IdsOf(FlattenNode(t))
  }

  /** Some node of the forest, at any depth, has this id. */
  predicate Contains(ts: seq<PlanTask>, id: string) {
    id in Ids(ts)
  }

  predicate ContainsNode(t: PlanTask, id: string) {
    id in NodeIds(t)
  }

  lemma IdsUnfold(ts: seq<PlanTask>)
    requires ts != []
    ensures Ids(ts) == NodeIds(ts[0]) + Ids(ts[1..])
  {
    IdsOfConcat(FlattenNode(ts[0]), Flatten(ts[1..]));
  }

  lemma NodeIdsUnfold(t: PlanTask)
    ensures NodeIds(t) == [t.id] + Ids(Children(t))
  {
    FlattenNodeUnfold(t);
    IdsOfConcat([t], Flatten(Children(t)));
  }

  /** Pre-order position of the first node with this id. */
  function FirstPos(ts: seq<PlanTask>, id: string): nat
    requires Contains(ts, id)
  {
    IndexOf(Ids(ts), id)
  }

  function FirstPosNode(t: PlanTask, id: string): nat
    requires ContainsNode(t, id)
  {
    IndexOf(NodeIds(t), id)
  }

  /** The first node, in pre-order, with this id. */
  function FirstMatch(ts: seq<PlanTask>, id: string): (t: PlanTask)
    requires Contains(ts, id)
    ensures t.id == id
  {
    Flatten(ts)[FirstPos(ts, id)]
  }

  /** Ids are unique across the whole forest. */
  predicate UniqueIds(ts: seq<PlanTask>) {
    Distinct(Ids(ts))
  }

  lemma ConsIndex(ts: seq<PlanTask>, id: string)
    requires ts != [] && (ContainsNode(ts[0], id) || Contains(ts[1..], id))
    ensures Contains(ts, id)
    ensures FirstPos(ts, id)
         == if ContainsNode(ts[0], id) then FirstPosNode(ts[0], id)
            else |FlattenNode(ts[0])| + FirstPos(ts[1..], id)
  {
    IdsUnfold(ts);
    IndexOfConcat(NodeIds(ts[0]), Ids(ts[1..]), id);
  }

  lemma ConsMatchHead(ts: seq<PlanTask>, k: nat)
    requires ts != [] && k < |FlattenNode(ts[0])|
    ensures k < |Flatten(ts)| && Flatten(ts)[k] == FlattenNode(ts[0])[k]
  {
    assert Flatten(ts) == FlattenNode(ts[0]) + Flatten(ts[1..]);
  }

  lemma ConsMatchTail(ts: seq<PlanTask>, k: nat)
    requires ts != [] && k < |Flatten(ts[1..])|
    ensures |FlattenNode(ts[0])| + k < |Flatten(ts)|
    ensures Flatten(ts)[|FlattenNode(ts[0])| + k] == Flatten(ts[1..])[k]
  {
    assert Flatten(ts) == FlattenNode(ts[0]) + Flatten(ts[1..]);
  }

  /** A match inside the first root is the forest's first match, at the same position. */
  lemma ConsPosHead(ts: seq<PlanTask>, id: string)
    requires ts != [] && ContainsNode(ts[0], id)
    ensures Contains(ts, id)
    ensures FirstPos(ts, id) == FirstPosNode(ts[0], id)
    ensures FirstMatch(ts, id) == FlattenNode(ts[0])[FirstPosNode(ts[0], id)]
  {
    ConsIndex(ts, id);
    ConsMatchHead(ts, FirstPosNode(ts[0], id));
  }

  /** With no match inside the first root, the forest's first match is that of the other roots, shifted by the root's size. */
  lemma ConsPosTail(ts: seq<PlanTask>, id: string)
    requires ts != [] && !ContainsNode(ts[0], id)
    ensures Contains(ts, id) <==> Contains(ts[1..], id)
    ensures Contains(ts[1..], id) ==> FirstPos(ts, id) == |FlattenNode(ts[0])| + FirstPos(ts[1..], id)
    ensures Contains(ts[1..], id) ==> FirstMatch(ts, id) == FirstMatch(ts[1..], id)
  {
    IdsUnfold(ts);
    if Contains(ts[1..], id) {
      ConsIndex(ts, id);
      ConsMatchTail(ts, FirstPos(ts[1..], id));
    }
  }

  /* ---------------- lookup ---------------- */

  /**
   * `findTask`: scan the list in order; a node with the id is returned,
   * otherwise its children are searched before moving on.
   */
  function Find(ts: seq<PlanTask>, id: string): Option<PlanTask>
    decreases ts
  {
    if ts == [] then None
    else
      match FindNode(ts[0], id)
      case Some(t) => Some(t)
      case None => Find(ts[1..], id)
  }

  function FindNode(t: PlanTask, id: string): Option<PlanTask>
    decreases t
  {
    if t.id == id then Some(t)
    else
      match t.subTasks
      case NoSubTasks => None
      case SubTasks(cs) => Find(cs, id)
  }

  /** The lookup finds a node exactly when the id occurs, and then the first one in pre-order. */
  lemma {:induction false} FindFirst(ts: seq<PlanTask>, id: string)
    ensures Find(ts, id) == if Contains(ts, id) then Some(FirstMatch(ts, id)) else None
    decreases ts
  {
    if ts != [] {
      var t, rest := ts[0], ts[1..];
      FindNodeFirst(t, id);
      if ContainsNode(t, id) {
        ConsPosHead(ts, id);
      } else {
        FindFirst(rest, id);
        ConsPosTail(ts, id);
      }
    } else {
      assert Ids(ts) == [];
    }
  }

  lemma {:induction false} FindNodeFirst(t: PlanTask, id: string)
    ensures FindNode(t, id) == if ContainsNode(t, id) then Some(FlattenNode(t)[FirstPosNode(t, id)]) else None
    decreases t
  {
    NodeIdsUnfold(t);
    if t.id == id {
      assert FirstPosNode(t, id) == 0;
    } else {
      match t.subTasks
      case NoSubTasks =>
        assert Ids([]) == [];
      case SubTasks(cs) =>
        FindFirst(cs, id);
        ChildFind(t, cs, id);
    }
  }

  /** A node's descendants are its children's forest, one position further on. */
  lemma ChildContains(t: PlanTask, cs: seq<PlanTask>, id: string)
    requires t.subTasks == SubTasks(cs) && t.id != id
    ensures ContainsNode(t, id) <==> Contains(cs, id)
  {
    assert Children(t) == cs;
    NodeIdsUnfold(t);
  }

  /** A node's pre-order is the node followed by the pre-order of its children. */
  lemma ChildUnfold(t: PlanTask, cs: seq<PlanTask>)
    requires t.subTasks == SubTasks(cs)
    ensures FlattenNode(t) == [t] + Flatten(cs)
    ensures NodeIds(t) == [t.id] + Ids(cs)
  {
    NodeIdsUnfold(t);
    FlattenNodeUnfold(t);
    assert Children(t) == cs;
  }

  lemma ChildIndex(t: PlanTask, cs: seq<PlanTask>, id: string)
    requires t.subTasks == SubTasks(cs) && t.id != id && Contains(cs, id)
    ensures ContainsNode(t, id) && FirstPosNode(t, id) == 1 + FirstPos(cs, id)
  {
    ChildUnfold(t, cs);
    IndexOfPastHead(t.id, Ids(cs), id);
  }

  lemma ChildMatch(t: PlanTask, cs: seq<PlanTask>, id: string)
    requires t.subTasks == SubTasks(cs) && Contains(cs, id)
    ensures 1 + FirstPos(cs, id) < |FlattenNode(t)|
    ensures FlattenNode(t)[1 + FirstPos(cs, id)] == FirstMatch(cs, id)
  {
    ChildUnfold(t, cs);
  }

  lemma ChildPos(t: PlanTask, cs: seq<PlanTask>, id: string)
    requires t.subTasks == SubTasks(cs) && t.id != id && Contains(cs, id)
    ensures ContainsNode(t, id)
    ensures FirstPosNode(t, id) == 1 + FirstPos(cs, id)
    ensures FlattenNode(t)[1 + FirstPos(cs, id)] == FirstMatch(cs, id)
  {
    ChildIndex(t, cs, id);
    ChildMatch(t, cs, id);
  }

  lemma ChildFind(t: PlanTask, cs: seq<PlanTask>, id: string)
    requires t.subTasks == SubTasks(cs) && t.id != id
    requires Find(cs, id) == if Contains(cs, id) then Some(FirstMatch(cs, id)) else None
    ensures FindNode(t, id) == if ContainsNode(t, id) then Some(FlattenNode(t)[FirstPosNode(t, id)]) else None
  {
    ChildContains(t, cs, id);
    assert FindNode(t, id) == Find(cs, id);
    if Contains(cs, id) {
      ChildPos(t, cs, id);
    }
  }

  /* ---------------- outline ---------------- */

  /** One node of the outline: the node without its children, and its depth. */
  datatype Row = Row(node: PlanTask, depth: nat)

  /** The node with its child list emptied, keeping whether the key is present. */
  function Strip(t: PlanTask): PlanTask {
    t.(subTasks := if t.subTasks.NoSubTasks? then NoSubTasks else SubTasks([]))
  }

  function Outline(ts: seq<PlanTask>, depth: nat): seq<Row>
    decreases ts
  {
    if ts == [] then [] else OutlineNode(ts[0], depth) + Outline(ts[1..], depth)
  }

  function OutlineNode(t: PlanTask, depth: nat): seq<Row>
    decreases t
  {
    [Row(Strip(t), depth)] + match t.subTasks
                             case NoSubTasks => []
                             case SubTasks(cs) => Outline(cs, depth + 1)
  }

  lemma OutlineNodeUnfold(t: PlanTask, d: nat)
    ensures OutlineNode(t, d) == [Row(Strip(t), d)] + Outline(Children(t), d + 1)
  {
  }

  lemma {:induction false} OutlineConcat(a: seq<PlanTask>, b: seq<PlanTask>, d: nat)
    ensures Outline(a + b, d) == Outline(a, d) + Outline(b, d)
    decreases |a|
  {
    if a == [] {
      assert a + b == b;
    } else {
      assert (a + b)[0] == a[0];
      assert (a + b)[1..] == a[1..] + b;
      OutlineConcat(a[1..], b, d);
    }
  }

  lemma OutlineSingle(t: PlanTask, d: nat)
    ensures Outline([t], d) == OutlineNode(t, d)
  {
    assert [t][1..] == [];
  }

  /** The outline lists the stripped nodes of the pre-order, one row per node. */
  lemma {:induction false} OutlineShape(ts: seq<PlanTask>, d: nat)
    ensures |Outline(ts, d)| == |Flatten(ts)|
    ensures forall k :: 0 <= k < |Flatten(ts)| ==> Outline(ts, d)[k].node == Strip(Flatten(ts)[k])
    decreases ts
  {
    if ts != [] {
      OutlineNodeShape(ts[0], d);
      OutlineShape(ts[1..], d);
      var a, b := OutlineNode(ts[0], d), Outline(ts[1..], d);
      var fa, fb := FlattenNode(ts[0]), Flatten(ts[1..]);
      assert forall k :: 0 <= k < |fa| + |fb| ==> (a + b)[k] == if k < |a| then a[k] else b[k - |a|];
      assert forall k :: 0 <= k < |fa| + |fb| ==> (fa + fb)[k] == if k < |fa| then fa[k] else fb[k - |fa|];
    }
  }

  lemma {:induction false} OutlineNodeShape(t: PlanTask, d: nat)
    ensures |OutlineNode(t, d)| == |FlattenNode(t)|
    ensures forall k :: 0 <= k < |FlattenNode(t)| ==> OutlineNode(t, d)[k].node == Strip(FlattenNode(t)[k])
    decreases t
  {
    match t.subTasks
    case NoSubTasks =>
    case SubTasks(cs) =>
      OutlineShape(cs, d + 1);
      assert forall k :: 1 <= k < |FlattenNode(t)| ==> OutlineNode(t, d)[k] == Outline(cs, d + 1)[k - 1];
      assert forall k :: 1 <= k < |FlattenNode(t)| ==> FlattenNode(t)[k] == Flatten(cs)[k - 1];
  }

  /* ---------------- replacing the first match ---------------- */

  /**
   * The forest with the first node (in pre-order) whose id is `id` replaced by
   * the nodes `ns` in its parent's list: `[n]` updates it in place, `[]`
   * removes it with its subtree.
   */
  function ReplaceFirst(ts: seq<PlanTask>, id: string, ns: seq<PlanTask>): seq<PlanTask>
    decreases ts
  {
    if ts == [] then []
    else if ContainsNode(ts[0], id) then ReplaceFirstNode(ts[0], id, ns) + ts[1..]
    else [ts[0]] + ReplaceFirst(ts[1..], id, ns)
  }

  function ReplaceFirstNode(t: PlanTask, id: string, ns: seq<PlanTask>): seq<PlanTask>
    decreases t
  {
    if t.id == id then ns
    else
      match t.subTasks
      case NoSubTasks => [t]
      case SubTasks(cs) => [t.(subTasks := SubTasks(ReplaceFirst(cs, id, ns)))]
  }

  /** Without a match nothing is replaced. */
  lemma {:induction false} ReplaceAbsent(ts: seq<PlanTask>, id: string, ns: seq<PlanTask>)
    requires !Contains(ts, id)
    ensures ReplaceFirst(ts, id, ns) == ts
    decreases ts
  {
    if ts != [] {
      IdsUnfold(ts);
      ReplaceAbsent(ts[1..], id, ns);
      assert [ts[0]] + ts[1..] == ts;
    }
  }

  /** The rows from position `k` on start with the whole outline of `sub`. */
  predicate BlockAt(o: seq<Row>, k: nat, sub: PlanTask) {
    k + |FlattenNode(sub)| <= |o| && o[k..k + |FlattenNode(sub)|] == OutlineNode(sub, o[k].depth)
  }

  /** `o` with the `m` rows from position `k` replaced by `r`. */
  function Spliced(o: seq<Row>, k: nat, m: nat, r: seq<Row>): seq<Row>
    requires k + m <= |o|
  {
    o[..k] + r + o[k + m..]
  }

  /** A block of `a` is a block of `o == a + b` (stated for the caller's own terms `k'` and `sub'`). */
  lemma BlockLeft(a: seq<Row>, b: seq<Row>, k: nat, sub: PlanTask, o: seq<Row>, k': nat, sub': PlanTask)
    requires BlockAt(a, k, sub) && o == a + b && k' == k && sub' == sub
    ensures BlockAt(o, k', sub')
  {
    SlicesLeft(a, b, k, |FlattenNode(sub)|);
  }

  /** A block of `b` is a block of `o == a + b`, `|a|` rows further on. */
  lemma BlockRight(a: seq<Row>, b: seq<Row>, k: nat, sub: PlanTask, o: seq<Row>, k': nat, sub': PlanTask)
    requires BlockAt(b, k, sub) && o == a + b && k' == |a| + k && sub' == sub
    ensures BlockAt(o, k', sub')
  {
    SlicesRight(a, b, k, |FlattenNode(sub)|);
  }

  lemma SplicedLeft(a: seq<Row>, b: seq<Row>, k: nat, m: nat, r: seq<Row>)
    requires k + m <= |a|
    ensures Spliced(a, k, m, r) + b == Spliced(a + b, k, m, r)
  {
    SlicesLeft(a, b, k, m);
  }

  lemma SplicedRight(a: seq<Row>, b: seq<Row>, k: nat, m: nat, r: seq<Row>)
    requires k + m <= |b|
    ensures a + Spliced(b, k, m, r) == Spliced(a + b, |a| + k, m, r)
  {
    SlicesRight(a, b, k, m);
  }

  /** Number of nodes in the first match's subtree. */
  function MatchSize(ts: seq<PlanTask>, id: string): nat
    requires Contains(ts, id)
  {
    |FlattenNode(FirstMatch(ts, id))|
  }

  /** Splicing in a first row and the old block's other rows rewrites one row. */
  lemma SpliceOneRow(o: seq<Row>, k: nat, m: nat, x: Row)
    requires k < k + m <= |o|
    ensures Spliced(o, k, m, [x] + o[k + 1..k + m]) == o[k := x]
  {
    assert Spliced(o, k, m, [x] + o[k + 1..k + m]) == o[..k] + [x] + o[k + 1..];
  }

  /** Two nodes with the same children have the same outline below their first row. */
  lemma SameChildrenOutline(a: PlanTask, b: PlanTask, d: nat)
    requires a.subTasks == b.subTasks
    ensures OutlineNode(b, d) == [Row(Strip(b), d)] + OutlineNode(a, d)[1..]
  {
    OutlineNodeUnfold(a, d);
    OutlineNodeUnfold(b, d);
  }

  /**
   * The rows of the first match's subtree form one contiguous block of the
   * outline, starting at the match's pre-order position.
   */
  lemma {:induction false} OutlineBlock(ts: seq<PlanTask>, id: string, d: nat)
    requires Contains(ts, id)
    ensures BlockAt(Outline(ts, d), FirstPos(ts, id), FirstMatch(ts, id))
    decreases ts
  {
    var t, rest := ts[0], ts[1..];
    var a, b := OutlineNode(t, d), Outline(rest, d);
    assert |a| == |FlattenNode(t)| by {
      OutlineNodeShape(t, d);
    }
    assert Outline(ts, d) == a + b;
    if ContainsNode(t, id) {
      ConsPosHead(ts, id);
      OutlineBlockNode(t, id, d);
      BlockLeft(a, b, FirstPosNode(t, id), FlattenNode(t)[FirstPosNode(t, id)],
                Outline(ts, d), FirstPos(ts, id), FirstMatch(ts, id));
    } else {
      ConsPosTail(ts, id);
      OutlineBlock(rest, id, d);
      BlockRight(a, b, FirstPos(rest, id), FirstMatch(rest, id), Outline(ts, d), FirstPos(ts, id), FirstMatch(ts, id));
    }
  }

  lemma {:induction false} OutlineBlockNode(t: PlanTask, id: string, d: nat)
    requires ContainsNode(t, id)
    ensures BlockAt(OutlineNode(t, d), FirstPosNode(t, id), FlattenNode(t)[FirstPosNode(t, id)])
    decreases t
  {
    NodeIdsUnfold(t);
    if t.id == id {
      OwnBlock(t, d);
      assert FirstPosNode(t, id) == 0;
      FlattenNodeUnfold(t);
    } else {
      match t.subTasks
      case NoSubTasks =>
        assert false;
      case SubTasks(cs) =>
        OutlineBlock(cs, id, d + 1);
        ChildBlock(t, cs, id, d);
    }
  }

  /** A block among a node's descendants is a block of the node's outline, one row further on. */
  lemma ChildBlock(t: PlanTask, cs: seq<PlanTask>, id: string, d: nat)
    requires t.subTasks == SubTasks(cs) && t.id != id && Contains(cs, id)
    requires BlockAt(Outline(cs, d + 1), FirstPos(cs, id), FirstMatch(cs, id))
    ensures ContainsNode(t, id)
    ensures BlockAt(OutlineNode(t, d), FirstPosNode(t, id), FlattenNode(t)[FirstPosNode(t, id)])
  {
    ChildPos(t, cs, id);
    assert OutlineNode(t, d) == [Row(Strip(t), d)] + Outline(cs, d + 1) by {
      OutlineNodeUnfold(t, d);
      assert Children(t) == cs;
    }
    BlockRight([Row(Strip(t), d)], Outline(cs, d + 1), FirstPos(cs, id), FirstMatch(cs, id),
               OutlineNode(t, d), FirstPosNode(t, id), FlattenNode(t)[FirstPosNode(t, id)]);
  }

  /** A node's outline is its own block. */
  lemma OwnBlock(t: PlanTask, d: nat)
    ensures BlockAt(OutlineNode(t, d), 0, t)
  {
    var o := OutlineNode(t, d);
    OutlineNodeShape(t, d);
    assert o[0].depth == d;
    assert o[0..|o|] == o;
  }

  /**
   * Replacing the first match splices the outline: the block of the matched
   * subtree gives way to the outline of `ns` at the match's depth, and every
   * other row is kept, in order.
   */
  lemma {:induction false} SpliceOutline(ts: seq<PlanTask>, id: string, ns: seq<PlanTask>, d: nat)
    requires Contains(ts, id)
    ensures FirstPos(ts, id) + MatchSize(ts, id) <= |Outline(ts, d)|
    ensures Outline(ReplaceFirst(ts, id, ns), d)
         == Spliced(Outline(ts, d), FirstPos(ts, id), MatchSize(ts, id),
                    Outline(ns, Outline(ts, d)[FirstPos(ts, id)].depth))
    decreases ts
  {
    if ContainsNode(ts[0], id) {
      SpliceOutlineNode(ts[0], id, ns, d);
      SpliceHead(ts, id, ns, d);
    } else {
      ConsPosTail(ts, id);
      SpliceOutline(ts[1..], id, ns, d);
      SpliceTail(ts, id, ns, d);
    }
  }

  /** A splice inside the first root is a splice of the forest's outline at the same position. */
  lemma SpliceHead(ts: seq<PlanTask>, id: string, ns: seq<PlanTask>, d: nat)
    requires ts != [] && ContainsNode(ts[0], id)
    requires var k := FirstPosNode(ts[0], id);
             k + |FlattenNode(FlattenNode(ts[0])[k])| <= |OutlineNode(ts[0], d)|
             && Outline(ReplaceFirstNode(ts[0], id, ns), d)
                == Spliced(OutlineNode(ts[0], d), k, |FlattenNode(FlattenNode(ts[0])[k])|,
                           Outline(ns, OutlineNode(ts[0], d)[k].depth))
    ensures Contains(ts, id)
    ensures FirstPos(ts, id) + MatchSize(ts, id) <= |Outline(ts, d)|
    ensures Outline(ReplaceFirst(ts, id, ns), d)
         == Spliced(Outline(ts, d), FirstPos(ts, id), MatchSize(ts, id),
                    Outline(ns, Outline(ts, d)[FirstPos(ts, id)].depth))
  {
    var t, rest := ts[0], ts[1..];
    var a, b := OutlineNode(t, d), Outline(rest, d);
    ConsPosHead(ts, id);
    var k := FirstPosNode(t, id);
    var o := Outline(ts, d);
    assert o == a + b;
    assert Outline(ReplaceFirst(ts, id, ns), d) == Outline(ReplaceFirstNode(t, id, ns), d) + b by {
      assert ReplaceFirst(ts, id, ns) == ReplaceFirstNode(t, id, ns) + rest;
      OutlineConcat(ReplaceFirstNode(t, id, ns), rest, d);
    }
    LeftSplice(o, a, b, Outline(ReplaceFirst(ts, id, ns), d), Outline(ReplaceFirstNode(t, id, ns), d),
               k, |FlattenNode(FlattenNode(t)[k])|, Outline(ns, a[k].depth),
               FirstPos(ts, id), MatchSize(ts, id), Outline(ns, o[FirstPos(ts, id)].depth));
  }

  /** A splice among the other roots is a splice of the forest's outline, past the first root's rows. */
  lemma SpliceTail(ts: seq<PlanTask>, id: string, ns: seq<PlanTask>, d: nat)
    requires ts != [] && !ContainsNode(ts[0], id) && Contains(ts[1..], id)
    requires FirstPos(ts[1..], id) + MatchSize(ts[1..], id) <= |Outline(ts[1..], d)|
    requires Outline(ReplaceFirst(ts[1..], id, ns), d)
          == Spliced(Outline(ts[1..], d), FirstPos(ts[1..], id), MatchSize(ts[1..], id),
                     Outline(ns, Outline(ts[1..], d)[FirstPos(ts[1..], id)].depth))
    ensures Contains(ts, id)
    ensures FirstPos(ts, id) + MatchSize(ts, id) <= |Outline(ts, d)|
    ensures Outline(ReplaceFirst(ts, id, ns), d)
         == Spliced(Outline(ts, d), FirstPos(ts, id), MatchSize(ts, id),
                    Outline(ns, Outline(ts, d)[FirstPos(ts, id)].depth))
  {
    var a, b := OutlineNode(ts[0], d), Outline(ts[1..], d);
    var k, m := FirstPos(ts[1..], id), MatchSize(ts[1..], id);
    var rs := ReplaceFirst(ts[1..], id, ns);
    TailReplaceOutline(ts, id, ns, d);
    TailShift(ts, id, d);
    var o := Outline(ts, d);
    ShiftSplice(o, a, b, Outline(ReplaceFirst(ts, id, ns), d), Outline(rs, d), k, m, Outline(ns, b[k].depth),
                FirstPos(ts, id), MatchSize(ts, id), Outline(ns, o[FirstPos(ts, id)].depth));
  }

  /** With no match in the first root, replacing keeps that root's rows in front. */
  lemma TailReplaceOutline(ts: seq<PlanTask>, id: string, ns: seq<PlanTask>, d: nat)
    requires ts != [] && !ContainsNode(ts[0], id)
    ensures Outline(ReplaceFirst(ts, id, ns), d) == OutlineNode(ts[0], d) + Outline(ReplaceFirst(ts[1..], id, ns), d)
  {
    var rs := ReplaceFirst(ts[1..], id, ns);
    assert ReplaceFirst(ts, id, ns) == [ts[0]] + rs;
    OutlineConcat([ts[0]], rs, d);
    OutlineSingle(ts[0], d);
  }

  /** With no match in the first root, the match among the other roots sits past the root's rows. */
  lemma TailShift(ts: seq<PlanTask>, id: string, d: nat)
    requires ts != [] && !ContainsNode(ts[0], id) && Contains(ts[1..], id)
    ensures Contains(ts, id)
    ensures FirstPos(ts, id) == |OutlineNode(ts[0], d)| + FirstPos(ts[1..], id)
    ensures MatchSize(ts, id) == MatchSize(ts[1..], id)
    ensures Outline(ts, d) == OutlineNode(ts[0], d) + Outline(ts[1..], d)
  {
    OutlineNodeShape(ts[0], d);
    ConsPosTail(ts, id);
  }

  /** A splice of the first part of `a + b` is a splice of the whole at the same position. */
  lemma LeftSplice(o: seq<Row>, a: seq<Row>, b: seq<Row>, x: seq<Row>, y: seq<Row>, k: nat, m: nat, r: seq<Row>,
                   k': nat, m': nat, r': seq<Row>)
    requires o == a + b && x == y + b && k + m <= |a| && y == Spliced(a, k, m, r)
    requires k' == k && m' == m && r' == r
    ensures k' + m' <= |o| && x == Spliced(o, k', m', r')
  {
    SplicedLeft(a, b, k, m, r);
  }

  /** A splice of the second part of `a + b` is a splice of the whole, shifted by `|a|`. */
  lemma ShiftSplice(o: seq<Row>, a: seq<Row>, b: seq<Row>, x: seq<Row>, y: seq<Row>, k: nat, m: nat, r: seq<Row>,
                    k': nat, m': nat, r': seq<Row>)
    requires o == a + b && x == a + y && k + m <= |b| && y == Spliced(b, k, m, r)
    requires k' == |a| + k && m' == m && r' == r
    ensures k' + m' <= |o| && x == Spliced(o, k', m', r')
  {
    SplicedRight(a, b, k, m, r);
  }

  /**
   * Replacing the first match of a node's subtree splices the node's outline
   * in the same way.
   */
  lemma {:induction false} SpliceOutlineNode(t: PlanTask, id: string, ns: seq<PlanTask>, d: nat)
    requires ContainsNode(t, id)
    ensures var k := FirstPosNode(t, id);
            k + |FlattenNode(FlattenNode(t)[k])| <= |OutlineNode(t, d)|
            && Outline(ReplaceFirstNode(t, id, ns), d)
               == Spliced(OutlineNode(t, d), k, |FlattenNode(FlattenNode(t)[k])|,
                          Outline(ns, OutlineNode(t, d)[k].depth))
    decreases t
  {
    NodeIdsUnfold(t);
    if t.id == id {
      OwnSplice(t, ns, d);
      assert FirstPosNode(t, id) == 0;
    } else {
      match t.subTasks
      case NoSubTasks =>
        assert false;
      case SubTasks(cs) =>
        SpliceOutline(cs, id, ns, d + 1);
        ChildSplice(t, cs, id, ns, d);
    }
  }

  /** Replacing a node itself replaces its whole outline. */
  lemma OwnSplice(t: PlanTask, ns: seq<PlanTask>, d: nat)
    ensures |FlattenNode(t)| <= |OutlineNode(t, d)|
    ensures Outline(ns, d) == Spliced(OutlineNode(t, d), 0, |FlattenNode(t)|, Outline(ns, OutlineNode(t, d)[0].depth))
  {
    var o := OutlineNode(t, d);
    OutlineNodeShape(t, d);
    assert o[0].depth == d;
    assert o[..0] + Outline(ns, d) + o[|o|..] == Outline(ns, d);
  }

  /** A splice among a node's descendants is a splice of the node's outline, one row further on. */
  lemma ChildSplice(t: PlanTask, cs: seq<PlanTask>, id: string, ns: seq<PlanTask>, d: nat)
    requires t.subTasks == SubTasks(cs) && t.id != id && Contains(cs, id)
    requires FirstPos(cs, id) + MatchSize(cs, id) <= |Outline(cs, d + 1)|
    requires Outline(ReplaceFirst(cs, id, ns), d + 1)
          == Spliced(Outline(cs, d + 1), FirstPos(cs, id), MatchSize(cs, id),
                     Outline(ns, Outline(cs, d + 1)[FirstPos(cs, id)].depth))
    ensures ContainsNode(t, id)
    ensures var k := FirstPosNode(t, id);
            k + |FlattenNode(FlattenNode(t)[k])| <= |OutlineNode(t, d)|
            && Outline(ReplaceFirstNode(t, id, ns), d)
               == Spliced(OutlineNode(t, d), k, |FlattenNode(FlattenNode(t)[k])|,
                          Outline(ns, OutlineNode(t, d)[k].depth))
  {
    var c := Outline(cs, d + 1);
    var o := OutlineNode(t, d);
    var k, m := FirstPos(cs, id), MatchSize(cs, id);
    var head := [Row(Strip(t), d)];
    ChildPos(t, cs, id);
    assert o == head + c by {
      OutlineNodeUnfold(t, d);
      assert Children(t) == cs;
    }
    var t' := t.(subTasks := SubTasks(ReplaceFirst(cs, id, ns)));
    assert Outline(ReplaceFirstNode(t, id, ns), d) == head + Outline(ReplaceFirst(cs, id, ns), d + 1) by {
      assert ReplaceFirstNode(t, id, ns) == [t'];
      OutlineSingle(t', d);
      OutlineNodeUnfold(t', d);
      assert Strip(t') == Strip(t);
    }
    var k' := FirstPosNode(t, id);
    ShiftSplice(o, head, c, Outline(ReplaceFirstNode(t, id, ns), d), Outline(ReplaceFirst(cs, id, ns), d + 1),
                k, m, Outline(ns, c[k].depth), k', |FlattenNode(FlattenNode(t)[k'])|, Outline(ns, o[k'].depth));
  }

  /** Below its first row, the first match's block is the outline of its children. */
  lemma BlockChildren(ts: seq<PlanTask>, id: string, d: nat, o: seq<Row>, k: nat, m: nat)
    requires Contains(ts, id)
    requires o == Outline(ts, d) && k == FirstPos(ts, id) && m == MatchSize(ts, id)
    ensures k < k + m <= |o|
    ensures o[k + 1..k + m] == Outline(Children(FirstMatch(ts, id)), o[k].depth + 1)
  {
    OutlineBlock(ts, id, d);
    var p := FirstMatch(ts, id);
    OutlineNodeUnfold(p, o[k].depth);
    assert o[k..k + m] == OutlineNode(p, o[k].depth);
  }

  /** After the first match is replaced by a node with the same id, the lookup returns that node. */
  lemma {:induction false} FindAfterReplace(ts: seq<PlanTask>, id: string, n: PlanTask)
    requires Contains(ts, id) && n.id == id
    ensures Find(ReplaceFirst(ts, id, [n]), id) == Some(n)
    decreases ts
  {
    var t, rest := ts[0], ts[1..];
    IdsUnfold(ts);
    if ContainsNode(t, id) {
      FindNodeAfterReplace(t, id, n);
      var x := ReplaceFirstNode(t, id, [n]);
      assert (x + rest)[0] == x[0];
    } else {
      FindNodeFirst(t, id);
      FindAfterReplace(rest, id, n);
      assert ([t] + ReplaceFirst(rest, id, [n]))[1..] == ReplaceFirst(rest, id, [n]);
    }
  }

  lemma {:induction false} FindNodeAfterReplace(t: PlanTask, id: string, n: PlanTask)
    requires ContainsNode(t, id) && n.id == id
    ensures |ReplaceFirstNode(t, id, [n])| == 1
    ensures FindNode(ReplaceFirstNode(t, id, [n])[0], id) == Some(n)
    decreases t
  {
    NodeIdsUnfold(t);
    if t.id != id {
      match t.subTasks
      case NoSubTasks =>
        assert false;
      case SubTasks(cs) =>
        assert Children(t) == cs;
        FindAfterReplace(cs, id, n);
    }
  }

  /** `parent` with `n` pushed onto its child list, which is created when absent. */
  function AddChild(parent: PlanTask, n: PlanTask): (r: PlanTask)
    ensures r.id == parent.id
    ensures Children(r) == Children(parent) + [n]
  {
    parent.(subTasks := SubTasks(Children(parent) + [n]))
  }

  /** The new child's subtree comes right after the parent's old descendants, one level deeper. */
  lemma AddChildOutline(parent: PlanTask, n: PlanTask, d: nat)
    ensures OutlineNode(AddChild(parent, n), d)
         == [Row(Strip(AddChild(parent, n)), d)] + Outline(Children(parent), d + 1) + OutlineNode(n, d + 1)
  {
    OutlineConcat(Children(parent), [n], d + 1);
    OutlineSingle(n, d + 1);
  }

  /** A node pushed at the top level adds its outline at the end. */
  lemma AppendOutline(ts: seq<PlanTask>, n: PlanTask)
    ensures Outline(ts + [n], 0) == Outline(ts, 0) + OutlineNode(n, 0)
  {
    OutlineConcat(ts, [n], 0);
    OutlineSingle(n, 0);
  }

  /* ---------------- deletion ---------------- */

  /**
   * `deleteTaskRecursive`: drop every node whose id is `id`, at every depth,
   * with its subtree; the kept nodes keep their order.
   */
  function DeleteAll(ts: seq<PlanTask>, id: string): seq<PlanTask>
    decreases ts
  {
    if ts == [] then []
    else if ts[0].id == id then DeleteAll(ts[1..], id)
    else [DeleteAllNode(ts[0], id)] + DeleteAll(ts[1..], id)
  }

  /** A kept node, with the deletion applied to its children. */
  function DeleteAllNode(t: PlanTask, id: string): PlanTask
    decreases t
  {
    match t.subTasks
    case NoSubTasks => t
    case SubTasks(cs) => t.(subTasks := SubTasks(DeleteAll(cs, id)))
  }

  /** No node with the id is left. */
  lemma {:induction false} DeleteRemoves(ts: seq<PlanTask>, id: string)
    ensures !Contains(DeleteAll(ts, id), id)
    decreases ts
  {
    if ts != [] {
      DeleteRemoves(ts[1..], id);
      if ts[0].id != id {
        DeleteNodeRemoves(ts[0], id);
        IdsUnfold([DeleteAllNode(ts[0], id)] + DeleteAll(ts[1..], id));
        assert ([DeleteAllNode(ts[0], id)] + DeleteAll(ts[1..], id))[1..] == DeleteAll(ts[1..], id);
      }
    } else {
      assert Ids([]) == [];
    }
  }

  lemma {:induction false} DeleteNodeRemoves(t: PlanTask, id: string)
    requires t.id != id
    ensures !ContainsNode(DeleteAllNode(t, id), id)
    decreases t
  {
    var t' := DeleteAllNode(t, id);
    NodeIdsUnfold(t');
    match t.subTasks
    case NoSubTasks =>
      assert Ids([]) == [];
    case SubTasks(cs) =>
      DeleteRemoves(cs, id);
  }

  /** Deleting an id that does not occur leaves the forest as it is. */
  lemma {:induction false} DeleteAbsent(ts: seq<PlanTask>, id: string)
    requires !Contains(ts, id)
    ensures DeleteAll(ts, id) == ts
    decreases ts
  {
    if ts != [] {
      IdsUnfold(ts);
      NodeIdsUnfold(ts[0]);
      DeleteNodeAbsent(ts[0], id);
      DeleteAbsent(ts[1..], id);
      assert [ts[0]] + ts[1..] == ts;
    }
  }

  lemma {:induction false} DeleteNodeAbsent(t: PlanTask, id: string)
    requires !ContainsNode(t, id)
    ensures DeleteAllNode(t, id) == t
    decreases t
  {
    NodeIdsUnfold(t);
    match t.subTasks
    case NoSubTasks =>
    case SubTasks(cs) =>
      DeleteAbsent(cs, id);
  }

  /** The kept nodes appear in the outline in their old order (and at their old depth). */
  lemma {:induction false} DeleteKeepsOrder(ts: seq<PlanTask>, id: string, d: nat)
    ensures Subseq(Outline(DeleteAll(ts, id), d), Outline(ts, d))
    decreases ts
  {
    if ts == [] {
      SubseqRefl(Outline(ts, d));
    } else {
      var t, rest := ts[0], ts[1..];
      DeleteKeepsOrder(rest, id, d);
      if t.id == id {
        SubseqPrepend(Outline(DeleteAll(rest, id), d), Outline(rest, d), OutlineNode(t, d));
      } else {
        DeleteNodeKeepsOrder(t, id, d);
        OutlineConcat([DeleteAllNode(t, id)], DeleteAll(rest, id), d);
        OutlineSingle(DeleteAllNode(t, id), d);
        SubseqConcat(OutlineNode(DeleteAllNode(t, id), d), OutlineNode(t, d),
                     Outline(DeleteAll(rest, id), d), Outline(rest, d));
      }
    }
  }

  lemma {:induction false} DeleteNodeKeepsOrder(t: PlanTask, id: string, d: nat)
    ensures Subseq(OutlineNode(DeleteAllNode(t, id), d), OutlineNode(t, d))
    decreases t
  {
    match t.subTasks
    case NoSubTasks =>
      SubseqRefl(OutlineNode(t, d));
    case SubTasks(cs) =>
      var t' := DeleteAllNode(t, id);
      DeleteKeepsOrder(cs, id, d + 1);
      assert Strip(t') == Strip(t);
      SubseqRefl([Row(Strip(t), d)]);
      SubseqConcat([Row(Strip(t), d)], [Row(Strip(t), d)], Outline(DeleteAll(cs, id), d + 1), Outline(cs, d + 1));
  }

  /** With unique ids, deleting is removing the one matching subtree. */
  lemma {:induction false} DeleteUnique(ts: seq<PlanTask>, id: string)
    requires UniqueIds(ts)
    ensures DeleteAll(ts, id) == ReplaceFirst(ts, id, [])
    decreases ts
  {
    if ts != [] {
      var t, rest := ts[0], ts[1..];
      IdsUnfold(ts);
      DistinctConcat(NodeIds(t), Ids(rest));
      if ContainsNode(t, id) {
        DeleteAbsent(rest, id);
        if t.id != id {
          DeleteNodeUnique(t, id);
        }
      } else {
        NodeIdsUnfold(t);
        DeleteNodeAbsent(t, id);
        DeleteUnique(rest, id);
      }
    }
  }

  lemma {:induction false} DeleteNodeUnique(t: PlanTask, id: string)
    requires t.id != id
    requires Distinct(NodeIds(t))
    ensures [DeleteAllNode(t, id)] == ReplaceFirstNode(t, id, [])
    decreases t
  {
    NodeIdsUnfold(t);
    match t.subTasks
    case NoSubTasks =>
    case SubTasks(cs) =>
      DistinctConcat([t.id], Ids(cs));
      DeleteUnique(cs, id);
  }

  /* ---------------- serialised length ---------------- */

  /**
   * A stand-in for the length of a node's own fields in its JSON text: only
   * its positivity matters.
   */
  function FieldsLength(t: PlanTask): nat {
    2 + |t.id| + |t.wbs| + |t.projectCase| + |t.name| + |t.description|
  }

  /** Length of `JSON.stringify` of a list: brackets, and one `,` or `]` after each item. */
  function JsonLength(ts: seq<PlanTask>): nat
    decreases ts, 1
  {
    if ts == [] then 2 else 1 + ItemsLength(ts)
  }

  function ItemsLength(ts: seq<PlanTask>): nat
    decreases ts, 0
  {
    if ts == [] then 0 else NodeJsonLength(ts[0]) + 1 + ItemsLength(ts[1..])
  }

  /** A node's text: its fields, then `,"subTasks":` and the children's list when present. */
  function NodeJsonLength(t: PlanTask): nat
    decreases t
  {
    FieldsLength(t) + match t.subTasks
                      case NoSubTasks => 0
                      case SubTasks(cs) => 12 + JsonLength(cs)
  }

  /** Deleting never lengthens the text, and shortens it exactly when the id occurs. */
  lemma {:induction false} DeleteShrinks(ts: seq<PlanTask>, id: string)
    ensures ItemsLength(DeleteAll(ts, id)) <= ItemsLength(ts)
    ensures Contains(ts, id) ==> ItemsLength(DeleteAll(ts, id)) < ItemsLength(ts)
    ensures JsonLength(DeleteAll(ts, id)) <= JsonLength(ts)
    ensures Contains(ts, id) <==> JsonLength(DeleteAll(ts, id)) < JsonLength(ts)
    decreases ts
  {
    if ts == [] {
      assert Ids([]) == [];
    } else {
      var t, rest := ts[0], ts[1..];
      IdsUnfold(ts);
      DeleteShrinks(rest, id);
      if t.id != id {
        DeleteNodeShrinks(t, id);
        assert ([DeleteAllNode(t, id)] + DeleteAll(rest, id))[1..] == DeleteAll(rest, id);
      } else {
        NodeIdsUnfold(t);
      }
      if !Contains(ts, id) {
        DeleteAbsent(ts, id);
      }
    }
  }

  lemma {:induction false} DeleteNodeShrinks(t: PlanTask, id: string)
    requires t.id != id
    ensures NodeJsonLength(DeleteAllNode(t, id)) <= NodeJsonLength(t)
    ensures ContainsNode(t, id) ==> NodeJsonLength(DeleteAllNode(t, id)) < NodeJsonLength(t)
    decreases t
  {
    NodeIdsUnfold(t);
    match t.subTasks
    case NoSubTasks =>
      assert Ids([]) == [];
    case SubTasks(cs) =>
      DeleteShrinks(cs, id);
  }
}
