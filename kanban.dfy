/**
 * The rules the two Kanban boards share: the items split into the three status
 * columns, and a dropped card is turned into a status change. The boards
 * differ only in their items, so the rules take an item's id and status as
 * functions. Each column is a drop target whose id is its status title, and
 * each card is one whose id is the item's.
 */
module Kanban {
  import opened Wrappers
  import opened Types
  import opened Seqs

  /** The columns from left to right. */
  const Board: seq<Status> := [Backlog, InProgress, Done]

  /** The column for status `s`: the items with that status, in their order. */
  function Column<T(==)>(items: seq<T>, status: T -> Status, s: Status): (r: seq<T>)
    ensures Subseq(r, items)
    ensures forall i :: 0 <= i < |r| ==> status(r[i]) == s
    ensures forall i :: 0 <= i < |items| && status(items[i]) == s ==> items[i] in r
  {
    Filter(items, x => status(x) == s)
  }

  /** The three columns hold each item exactly as often as the list does, and no other. */
  lemma ColumnsPartition<T>(items: seq<T>, status: T -> Status)
    ensures multiset(Column(items, status, Backlog)) + multiset(Column(items, status, InProgress))
            + multiset(Column(items, status, Done)) == multiset(items)
  {
    forall x
      ensures (multiset(Column(items, status, Backlog)) + multiset(Column(items, status, InProgress))
              + multiset(Column(items, status, Done)))[x] == multiset(items)[x]
    {
      FilterMultiset(items, y => status(y) == Backlog, x);
      FilterMultiset(items, y => status(y) == InProgress, x);
      FilterMultiset(items, y => status(y) == Done, x);
    }
  }

  /** An item sits in the column of its own status and in no other. */
  lemma ColumnOfItem<T>(items: seq<T>, status: T -> Status, x: T, s: Status)
    requires x in items
    ensures x in Column(items, status, s) <==> status(x) == s
  {
    var k :| 0 <= k < |items| && items[k] == x;
    assert status(items[k]) == s ==> items[k] in Column(items, status, s);
  }

  /** `find` by id: the first item with the id, or nothing. */
  function FindById<T>(items: seq<T>, id: T -> string, key: string): (r: Option<T>)
    ensures r.None? <==> forall i :: 0 <= i < |items| ==> id(items[i]) != key
    ensures r.Some? ==> exists k :: 0 <= k < |items| && items[k] == r.value && id(items[k]) == key
                                    && forall j :: 0 <= j < k ==> id(items[j]) != key
  {
    match FirstIndex(items, x => id(x) == key)
    case None => None
    case Some(k) => Some(items[k])
  }

  /** What a card can be dropped on. */
  datatype Target = ColumnTarget(status: Status) | CardTarget(id: string)

  /** The drop target's id: a column's is its title. */
  function TargetId(t: Target): string {
    match t
    case ColumnTarget(s) => StatusName(s)
    case CardTarget(id) => id
  }

  /** The status change the board asks the server for. */
  datatype Move = Move(id: string, status: Status)

  /**
   * `destinationColumn`: the column dropped on, or the status of the first
   * item whose id the target card has; nothing for an unknown card.
   */
  function Destination<T>(items: seq<T>, id: T -> string, status: T -> Status, over: Target): (r: Option<Status>)
    ensures over.ColumnTarget? ==> r == Some(over.status)
    ensures over.CardTarget? ==> (r.None? <==> forall i :: 0 <= i < |items| ==> id(items[i]) != over.id)
    ensures over.CardTarget? && r.Some? ==>
              exists k :: 0 <= k < |items| && id(items[k]) == over.id && status(items[k]) == r.value
  {
    match over
    case ColumnTarget(s) => Some(s)
    case CardTarget(key) =>
      match FindById(items, id, key)
      case None => None
      case Some(x) => Some(status(x))
  }

  /**
   * `handleDragEnd`: no move without a target, onto the card itself or for an
   * unknown card; otherwise a move to the destination when there is one and
   * it differs from the card's status.
   */
  function DragEnd<T>(items: seq<T>, id: T -> string, status: T -> Status, activeId: string, over: Option<Target>)
    : (r: Option<Move>)
    ensures over.None? ==> r.None?
    ensures over.Some? && TargetId(over.value) == activeId ==> r.None?
    ensures (forall i :: 0 <= i < |items| ==> id(items[i]) != activeId) ==> r.None?
    ensures r.Some? ==> r.value.id == activeId && over.Some?
                        && Destination(items, id, status, over.value) == Some(r.value.status)
    ensures r.Some? ==> FindById(items, id, activeId).Some?
                        && status(FindById(items, id, activeId).value) != r.value.status
    ensures r.Some? <==> over.Some? && TargetId(over.value) != activeId
                         && FindById(items, id, activeId).Some?
                         && Destination(items, id, status, over.value).Some?
                         && status(FindById(items, id, activeId).value) != Destination(items, id, status, over.value).value
  {
    if over.None? then None
    else if activeId == TargetId(over.value) then None
    else
      match FindById(items, id, activeId)
      case None => None
      case Some(active) =>
        var dest := Destination(items, id, status, over.value);
        if dest.Some? && status(active) != dest.value then Some(Move(activeId, dest.value)) else None
  }

  /** Every move takes the card out of its column into another one. */
  lemma MoveChangesColumn<T>(items: seq<T>, id: T -> string, status: T -> Status, activeId: string,
                            over: Option<Target>)
    requires DragEnd(items, id, status, activeId, over).Some?
    ensures var m := DragEnd(items, id, status, activeId, over).value;
            var active := FindById(items, id, activeId).value;
            active in Column(items, status, status(active)) && active !in Column(items, status, m.status)
  {
    var m := DragEnd(items, id, status, activeId, over).value;
    var active := FindById(items, id, activeId).value;
    ColumnOfItem(items, status, active, status(active));
    ColumnOfItem(items, status, active, m.status);
  }

  /** Dropping a card on another column moves it there. */
  lemma DropOnColumn<T>(items: seq<T>, id: T -> string, status: T -> Status, activeId: string, s: Status)
    requires exists i :: 0 <= i < |items| && id(items[i]) == activeId
    requires activeId != StatusName(s)
    requires status(FindById(items, id, activeId).value) != s
    ensures DragEnd(items, id, status, activeId, Some(ColumnTarget(s))) == Some(Move(activeId, s))
  {
  }

  /** Dropping a card on another card in a different column moves it to that card's column. */
  lemma DropOnCard<T>(items: seq<T>, id: T -> string, status: T -> Status, activeId: string, j: nat)
    requires j < |items| && id(items[j]) != activeId
    requires forall i :: 0 <= i < j ==> id(items[i]) != id(items[j])
    requires exists i :: 0 <= i < |items| && id(items[i]) == activeId
    requires status(FindById(items, id, activeId).value) != status(items[j])
    ensures DragEnd(items, id, status, activeId, Some(CardTarget(id(items[j]))))
            == Some(Move(activeId, status(items[j])))
  {
    var k :| 0 <= k < |items| && items[k] == FindById(items, id, id(items[j])).value && id(items[k]) == id(items[j])
             && forall i :: 0 <= i < k ==> id(items[i]) != id(items[j]);
    assert !(k < j);
  }

  /** Dropping a card on its own column, or on a card in its own column, changes nothing. */
  lemma DropInOwnColumn<T>(items: seq<T>, id: T -> string, status: T -> Status, activeId: string, over: Target)
    requires FindById(items, id, activeId).Some?
    requires Destination(items, id, status, over) == Some(status(FindById(items, id, activeId).value))
    ensures DragEnd(items, id, status, activeId, Some(over)) == None
  {
  }
}
