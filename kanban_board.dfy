/**
 * The ticket board of a project (src/pages/KanbanBoard.jsx): tickets grouped
 * into three fixed status columns, a drop that moves a ticket from one column
 * to the end of another and rewrites its status, and the one ticket whose
 * description is expanded.
 */
module KanbanBoard {
  import opened Common
  import opened Domain

  const ToDo: string := "To Do"
  const InProgress: string := "In Progress"
  const Done: string := "Done"

  /** The column keys in the order `Object.keys(columns)` yields them. */
  const ColumnOrder: seq<string> := [ToDo, InProgress, Done]

  /** The `columns` state: column name to the tickets shown in it, top to bottom. */
  type Columns = map<string, seq<Ticket>>

  const EmptyColumns: Columns := map[ToDo := [], InProgress := [], Done := []]

  predicate HasColumns(cols: Columns)
  {
    cols.Keys == {ToDo, InProgress, Done}
  }

  /**
   * The board invariant: exactly the three columns, and every ticket sits in
   * the column named by its own status (so in at most one column).
   */
  predicate WellFormed(cols: Columns)
  {
    HasColumns(cols) &&
    forall c, t :: c in cols && t in cols[c] ==> t.status == c
  }

  // ---------------------------------------------------------------------------
  // Grouping a fetched ticket list (fetchTickets)
  // ---------------------------------------------------------------------------

  /** `grouped[t.status]?.push(t)`: append `t` to the column of its status, if there is one. */
  function Push(cols: Columns, t: Ticket): Columns
  {
    if t.status in cols then cols[t.status := cols[t.status] + [t]] else cols
  }

  /** The grouping `forEach` builds, one push per ticket in list order. */
  function Group(tickets: seq<Ticket>): (r: Columns)
    ensures HasColumns(r)
    decreases |tickets|
  {
    if tickets == [] then EmptyColumns
    else Push(Group(tickets[..|tickets| - 1]), tickets[|tickets| - 1])
  }

  /** Each column of the grouping is the input filtered by that status. */
  lemma {:induction false} GroupColumn(tickets: seq<Ticket>, c: string)
    requires c in ColumnOrder
    ensures Group(tickets)[c] == Filter(tickets, StatusIs(c))
    decreases |tickets|
  {
    if tickets != [] {
      var init, last := tickets[..|tickets| - 1], tickets[|tickets| - 1];
      assert tickets == init + [last];
      GroupColumn(init, c);
      FilterAppend(init, [last], StatusIs(c));
      assert Filter([last], StatusIs(c)) == if last.status == c then [last] else [];
    }
  }

  /**
   * Grouping partitions the tickets with a known status by that status, in
   * input order, and drops every other ticket.
   */
  lemma GroupIsPartition(tickets: seq<Ticket>)
    ensures WellFormed(Group(tickets))
    ensures forall c, t :: c in ColumnOrder ==>
      (t in Group(tickets)[c] <==> t in tickets && t.status == c)
    ensures forall c :: c in ColumnOrder ==> IsSubsequence(Group(tickets)[c], tickets)
    ensures forall t :: t in tickets && t.status !in ColumnOrder ==>
      forall c :: c in Group(tickets) ==> t !in Group(tickets)[c]
  {
    forall c | c in ColumnOrder
      ensures Group(tickets)[c] == Filter(tickets, StatusIs(c))
      ensures IsSubsequence(Group(tickets)[c], tickets)
    {
      GroupColumn(tickets, c);
      FilterIsSubsequence(tickets, StatusIs(c));
    }
  }

  // ---------------------------------------------------------------------------
  // Locating tickets (findColumnContainingTicket)
  // ---------------------------------------------------------------------------

  /** `columns[key].some((t) => t._id === id)` */
  predicate ColumnHolds(cols: Columns, key: string, id: string)
  {
    key in cols && Any(cols[key], IdIs(id))
  }

  function HoldsTicket(cols: Columns, id: string): string -> bool
  {
    (key: string) => ColumnHolds(cols, key, id)
  }

  /** The first column, in key order, that holds a ticket with this id. */
  function FindColumn(cols: Columns, id: string): (r: Option<string>)
    ensures r.Some? ==> r.value in ColumnOrder && ColumnHolds(cols, r.value, id)
    ensures r.None? <==> forall c :: c in ColumnOrder ==> !ColumnHolds(cols, c, id)
    ensures r == Some(InProgress) ==> !ColumnHolds(cols, ToDo, id)
    ensures r == Some(Done) ==> !ColumnHolds(cols, ToDo, id) && !ColumnHolds(cols, InProgress, id)
  {
    Find(ColumnOrder, HoldsTicket(cols, id))
  }

  // ---------------------------------------------------------------------------
  // Dropping a dragged ticket (handleDragEnd)
  // ---------------------------------------------------------------------------

  /**
   * Where a drop over `overId` lands: the column of the ticket under the
   * cursor, else the column whose own id is `overId`.
   */
  function ResolveDestination(cols: Columns, overId: string): (r: Option<string>)
    ensures FindColumn(cols, overId).Some? ==> r == FindColumn(cols, overId)
    ensures FindColumn(cols, overId).None? ==> (r.Some? <==> overId in ColumnOrder)
    ensures r.Some? ==> r.value in ColumnOrder
    ensures r.Some? && r.value != overId ==> ColumnHolds(cols, r.value, overId)
  {
    var toColumn := FindColumn(cols, overId);
    if toColumn.None? && overId in ColumnOrder then Some(overId) else toColumn
  }

  /**
   * The guards of `handleDragEnd`: the (source, destination) pair of a drop
   * that moves a ticket, or None for a drop that returns early.
   */
  function DropMove(cols: Columns, activeId: string, over: Option<string>): (r: Option<(string, string)>)
    ensures r.Some? ==> r.value.0 in ColumnOrder && r.value.1 in ColumnOrder && r.value.0 != r.value.1
    ensures r.Some? ==> ColumnHolds(cols, r.value.0, activeId)
    ensures r.Some? ==> over.Some? && ResolveDestination(cols, over.value) == Some(r.value.1)
    ensures r.None? <==>
      || over.None?
      || FindColumn(cols, activeId).None?
      || ResolveDestination(cols, over.value).None?
      || FindColumn(cols, activeId) == ResolveDestination(cols, over.value)
  {
    if over.None? then None
    else
      var fromColumn := FindColumn(cols, activeId);
      var toColumn := ResolveDestination(cols, over.value);
      if fromColumn.None? || toColumn.None? || fromColumn.value == toColumn.value then None
      else Some((fromColumn.value, toColumn.value))
  }

  /**
   * Moving ticket `id` from column `from` to the end of column `to`, with its
   * status rewritten; unchanged when `from` holds no such ticket.
   */
  function MoveTicket(cols: Columns, id: string, from: string, to: string): (r: Columns)
    requires from in cols && to in cols && from != to
    ensures r.Keys == cols.Keys
    ensures forall c :: c in cols && c != from && c != to ==> r[c] == cols[c]
    ensures !Any(cols[from], IdIs(id)) ==> r == cols
    ensures Any(cols[from], IdIs(id)) ==>
      && !Any(r[from], IdIs(id))
      && (forall t :: t in r[from] <==> t in cols[from] && t.id != id)
      && IsSubsequence(r[from], cols[from])
      && |r[to]| == |cols[to]| + 1
      && r[to][..|cols[to]|] == cols[to]
      && r[to][|cols[to]|].id == id
      && r[to][|cols[to]|].status == to
      && r[to][|cols[to]|] == Find(cols[from], IdIs(id)).value.(status := to)
  {
    var ticket := Find(cols[from], IdIs(id));
    if ticket.None? then cols
    else
      var newFrom := Filter(cols[from], IdIsNot(id));
      FilterIsSubsequence(cols[from], IdIsNot(id));
      var newTo := cols[to] + [ticket.value.(status := to)];
      assert newTo[..|cols[to]|] == cols[to];
      cols[from := newFrom][to := newTo]
  }

  /** The columns after a drop event `(activeId, over)`. */
  function Drop(cols: Columns, activeId: string, over: Option<string>): (r: Columns)
    requires HasColumns(cols)
    ensures HasColumns(r)
  {
    match DropMove(cols, activeId, over)
    case None => cols
    case Some((from, to)) => MoveTicket(cols, activeId, from, to)
  }

  /** A drop without target, with an unresolved end, or within one column changes nothing. */
  lemma DropWithoutMoveIsNoOp(cols: Columns, activeId: string, over: Option<string>)
    requires HasColumns(cols)
    requires
      || over.None?
      || FindColumn(cols, activeId).None?
      || ResolveDestination(cols, over.value).None?
      || FindColumn(cols, activeId) == ResolveDestination(cols, over.value)
    ensures Drop(cols, activeId, over) == cols
  {
  }

  /** A drop between two resolved, different columns moves the ticket. */
  lemma DropMovesTicket(cols: Columns, activeId: string, overId: string)
    requires HasColumns(cols)
    requires FindColumn(cols, activeId).Some? && ResolveDestination(cols, overId).Some?
    requires FindColumn(cols, activeId) != ResolveDestination(cols, overId)
    ensures
      var from, to := FindColumn(cols, activeId).value, ResolveDestination(cols, overId).value;
      var r := Drop(cols, activeId, Some(overId));
      && !ColumnHolds(r, from, activeId)
      && r[to] == cols[to] + [Find(cols[from], IdIs(activeId)).value.(status := to)]
      && forall c :: c in ColumnOrder && c != from && c != to ==> r[c] == cols[c]
  {
    var from, to := FindColumn(cols, activeId).value, ResolveDestination(cols, overId).value;
    var r := Drop(cols, activeId, Some(overId));
    assert r == MoveTicket(cols, activeId, from, to);
    assert r[to] == r[to][..|cols[to]|] + [r[to][|cols[to]|]];
  }

  /** A drop keeps every ticket in the column of its status. */
  lemma DropPreservesWellFormed(cols: Columns, activeId: string, over: Option<string>)
    requires WellFormed(cols)
    ensures WellFormed(Drop(cols, activeId, over))
  {
    var r := Drop(cols, activeId, over);
    match DropMove(cols, activeId, over)
    case None =>
    case Some((from, to)) =>
      if Any(cols[from], IdIs(activeId)) {
        forall c: string, t: Ticket | c in r && t in r[c] ensures t.status == c {
          if c == to && t !in cols[to] {
            assert r[to] == r[to][..|cols[to]|] + [r[to][|cols[to]|]];
          }
        }
      }
  }

  // ---------------------------------------------------------------------------
  // Ticket identities across a drop
  // ---------------------------------------------------------------------------

  /** The ids of a column, in order. */
  function Ids(ts: seq<Ticket>): (r: seq<string>)
    ensures |r| == |ts|
    ensures forall i :: 0 <= i < |ts| ==> r[i] == ts[i].id
  {
    if ts == [] then [] else [ts[0].id] + Ids(ts[1..])
  }

  /** How many tickets carry each id, over the whole board. */
  ghost function IdBag(cols: Columns): multiset<string>
    requires HasColumns(cols)
  {
    multiset(Ids(cols[ToDo])) + multiset(Ids(cols[InProgress])) + multiset(Ids(cols[Done]))
  }

  /** No id occurs twice on the board. */
  ghost predicate UniqueIds(cols: Columns)
    requires HasColumns(cols)
  {
    forall id :: IdBag(cols)[id] <= 1
  }

  /** The number of tickets on the board. */
  function Total(cols: Columns): nat
    requires HasColumns(cols)
  {
    |cols[ToDo]| + |cols[InProgress]| + |cols[Done]|
  }

  lemma TotalIsBagSize(cols: Columns)
    requires HasColumns(cols)
    ensures |IdBag(cols)| == Total(cols)
  {
  }

  lemma {:induction false} IdsAppend(ts: seq<Ticket>, t: Ticket)
    ensures Ids(ts + [t]) == Ids(ts) + [t.id]
  {
  }

  /** Removing the tickets with one id removes exactly that id's occurrences. */
  lemma {:induction false} RemovedIdBag(ts: seq<Ticket>, id: string)
    ensures multiset(Ids(Filter(ts, IdIsNot(id))))[id] == 0
    ensures forall y :: y != id ==> multiset(Ids(Filter(ts, IdIsNot(id))))[y] == multiset(Ids(ts))[y]
  {
    if ts != [] {
      RemovedIdBag(ts[1..], id);
      var rest := Filter(ts[1..], IdIsNot(id));
      assert Ids(ts) == [ts[0].id] + Ids(ts[1..]);
      if ts[0].id != id {
        var kept := [ts[0]] + rest;
        assert kept[1..] == rest;
        assert Ids(kept) == [ts[0].id] + Ids(rest);
      }
    }
  }

  lemma HeldIdInBag(ts: seq<Ticket>, id: string)
    requires Any(ts, IdIs(id))
    ensures multiset(Ids(ts))[id] >= 1
  {
    var t :| t in ts && IdIs(id)(t);
    var i :| 0 <= i < |ts| && ts[i] == t;
    assert Ids(ts)[i] == id;
  }

  /** The column that is neither `from` nor `to`. */
  function ThirdColumn(from: string, to: string): (c: string)
    requires from in ColumnOrder && to in ColumnOrder && from != to
    ensures c in ColumnOrder && c != from && c != to
  {
    if from != ToDo && to != ToDo then ToDo
    else if from != InProgress && to != InProgress then InProgress
    else Done
  }

  lemma SumCommutes(x: multiset<string>, y: multiset<string>, z: multiset<string>)
    ensures x + y + z == x + z + y == y + x + z == y + z + x == z + x + y == z + y + x
  {
  }

  lemma BagByColumns(cols: Columns, from: string, to: string)
    requires HasColumns(cols) && from in cols && to in cols && from != to
    ensures IdBag(cols) ==
      multiset(Ids(cols[from])) + multiset(Ids(cols[to])) + multiset(Ids(cols[ThirdColumn(from, to)]))
  {
    var x, y, z := multiset(Ids(cols[ToDo])), multiset(Ids(cols[InProgress])), multiset(Ids(cols[Done]));
    var a, b, c := multiset(Ids(cols[from])), multiset(Ids(cols[to])), multiset(Ids(cols[ThirdColumn(from, to)]));
    assert IdBag(cols) == x + y + z;
    SumCommutes(x, y, z);
    if from == ToDo {
      if to == InProgress {
        assert a == x && b == y && c == z;
      } else {
        assert a == x && b == z && c == y;
      }
    } else if from == InProgress {
      if to == ToDo {
        assert a == y && b == x && c == z;
      } else {
        assert a == y && b == z && c == x;
      }
    } else {
      if to == ToDo {
        assert a == z && b == x && c == y;
      } else {
        assert a == z && b == y && c == x;
      }
    }
  }

  /** Removing the only ticket with an id takes exactly that id out. */
  lemma RemoveOnce(ts: seq<Ticket>, id: string)
    requires multiset(Ids(ts))[id] == 1
    ensures multiset(Ids(Filter(ts, IdIsNot(id)))) == multiset(Ids(ts)) - multiset{id}
  {
    RemovedIdBag(ts, id);
  }

  lemma Transfer(a: multiset<string>, a': multiset<string>, b: multiset<string>, b': multiset<string>,
                 c: multiset<string>, id: string)
    requires a[id] == 1 && a' == a - multiset{id} && b' == b + multiset{id}
    ensures a' + b' + c == a + b + c
  {
  }

  /** With unique ids a move neither loses nor duplicates any ticket id. */
  lemma MoveKeepsIdBag(cols: Columns, id: string, from: string, to: string)
    requires HasColumns(cols) && UniqueIds(cols)
    requires from in cols && to in cols && from != to
    ensures IdBag(MoveTicket(cols, id, from, to)) == IdBag(cols)
  {
    var r := MoveTicket(cols, id, from, to);
    if Any(cols[from], IdIs(id)) {
      var other := ThirdColumn(from, to);
      BagByColumns(cols, from, to);
      BagByColumns(r, from, to);
      var a, b, c := multiset(Ids(cols[from])), multiset(Ids(cols[to])), multiset(Ids(cols[other]));
      HeldIdInBag(cols[from], id);
      assert IdBag(cols)[id] <= 1;
      assert r[from] == Filter(cols[from], IdIsNot(id));
      RemoveOnce(cols[from], id);
      var moved := Find(cols[from], IdIs(id)).value.(status := to);
      assert r[to] == cols[to] + [moved];
      IdsAppend(cols[to], moved);
      assert r[other] == cols[other];
      Transfer(a, multiset(Ids(r[from])), b, multiset(Ids(r[to])), c, id);
    }
  }

  /** A drop keeps the board's ticket ids, hence its ticket count and their uniqueness. */
  lemma DropKeepsTickets(cols: Columns, activeId: string, over: Option<string>)
    requires HasColumns(cols)
    ensures UniqueIds(cols) ==>
      && IdBag(Drop(cols, activeId, over)) == IdBag(cols)
      && UniqueIds(Drop(cols, activeId, over))
      && Total(Drop(cols, activeId, over)) == Total(cols)
  {
    var r := Drop(cols, activeId, over);
    if UniqueIds(cols) {
      match DropMove(cols, activeId, over)
      case None =>
      case Some((from, to)) =>
        MoveKeepsIdBag(cols, activeId, from, to);
      TotalIsBagSize(cols);
      TotalIsBagSize(r);
    }
  }

  /** No two tickets of a fetched list share an id. */
  predicate DistinctIds(ts: seq<Ticket>)
  {
    forall i, j :: 0 <= i < j < |ts| ==> ts[i].id != ts[j].id
  }

  /** `t => grouped[t.status]` names a column. */
  function KnownStatus(): Ticket -> bool
  {
    (t: Ticket) => t.status in ColumnOrder
  }

  /** Pushing a ticket of a known status adds its id to the board once. */
  lemma PushIdBag(cols: Columns, t: Ticket)
    requires HasColumns(cols) && t.status in ColumnOrder
    ensures HasColumns(Push(cols, t))
    ensures IdBag(Push(cols, t)) == IdBag(cols) + multiset{t.id}
  {
    var c := t.status;
    var r := cols[c := cols[c] + [t]];
    assert Push(cols, t) == r;
    IdsAppend(cols[c], t);
    var x, y, z := multiset(Ids(cols[ToDo])), multiset(Ids(cols[InProgress])), multiset(Ids(cols[Done]));
    var e := multiset{t.id};
    if c == ToDo {
      assert r[ToDo] == cols[ToDo] + [t] && r[InProgress] == cols[InProgress] && r[Done] == cols[Done];
      AddToOne(x, y, z, e);
    } else if c == InProgress {
      assert r[ToDo] == cols[ToDo] && r[InProgress] == cols[InProgress] + [t] && r[Done] == cols[Done];
      AddToOne(x, y, z, e);
    } else {
      assert r[ToDo] == cols[ToDo] && r[InProgress] == cols[InProgress] && r[Done] == cols[Done] + [t];
      AddToOne(x, y, z, e);
    }
  }

  lemma AddToOne(x: multiset<string>, y: multiset<string>, z: multiset<string>, e: multiset<string>)
    ensures (x + e) + y + z == x + y + z + e
    ensures x + (y + e) + z == x + y + z + e
    ensures x + y + (z + e) == x + y + z + e
  {
  }

  /** The ids on a loaded board are the ids of the fetched tickets whose status names a column. */
  lemma {:induction false} GroupIdBag(tickets: seq<Ticket>)
    ensures IdBag(Group(tickets)) == multiset(Ids(Filter(tickets, KnownStatus())))
    decreases |tickets|
  {
    if tickets == [] {
      assert IdBag(Group(tickets)) == multiset{};
    } else {
      var init, last := tickets[..|tickets| - 1], tickets[|tickets| - 1];
      assert tickets == init + [last];
      GroupIdBag(init);
      FilterAppend(init, [last], KnownStatus());
      var kept := Filter(init, KnownStatus());
      if last.status in ColumnOrder {
        assert Filter([last], KnownStatus()) == [last];
        IdsAppend(kept, last);
        PushIdBag(Group(init), last);
      } else {
        assert Filter([last], KnownStatus()) == [];
        assert kept + [] == kept;
      }
    }
  }

  /** A filter never raises the number of tickets carrying an id. */
  lemma {:induction false} FilterIdBag(ts: seq<Ticket>, p: Ticket -> bool)
    ensures multiset(Ids(Filter(ts, p))) <= multiset(Ids(ts))
  {
    if ts != [] {
      FilterIdBag(ts[1..], p);
      assert Ids(ts) == [ts[0].id] + Ids(ts[1..]);
      if p(ts[0]) {
        var r := [ts[0]] + Filter(ts[1..], p);
        assert r[1..] == Filter(ts[1..], p);
        assert Ids(r) == [ts[0].id] + Ids(Filter(ts[1..], p));
      }
    }
  }

  /** Distinct tickets carry each id at most once. */
  lemma {:induction false} DistinctIdBag(ts: seq<Ticket>)
    requires DistinctIds(ts)
    ensures forall id :: multiset(Ids(ts))[id] <= 1
  {
    if ts != [] {
      var rest := ts[1..];
      assert DistinctIds(rest) by {
        forall i, j | 0 <= i < j < |rest|
          ensures rest[i].id != rest[j].id
        {
          assert rest[i] == ts[i + 1] && rest[j] == ts[j + 1];
        }
      }
      DistinctIdBag(rest);
      assert Ids(ts) == [ts[0].id] + Ids(rest);
      assert ts[0].id !in Ids(rest) by {
        forall k | 0 <= k < |rest|
          ensures Ids(rest)[k] != ts[0].id
        {
          assert rest[k] == ts[k + 1];
        }
      }
    }
  }

  /**
   * Loading a list with distinct ids gives a board whose ids are unique, and
   * the board shows exactly the tickets whose status names a column.
   */
  lemma GroupKeepsTickets(tickets: seq<Ticket>)
    ensures Total(Group(tickets)) == |Filter(tickets, KnownStatus())|
    ensures DistinctIds(tickets) ==> UniqueIds(Group(tickets))
  {
    GroupIdBag(tickets);
    TotalIsBagSize(Group(tickets));
    if DistinctIds(tickets) {
      FilterIdBag(tickets, KnownStatus());
      DistinctIdBag(tickets);
    }
  }

  /** A lone ticket dragged from "To Do" onto the "Done" column ends up there with status "Done". */
  lemma MoveToDoneExample(t: Ticket)
    requires t.status == ToDo && t.id !in ColumnOrder
    ensures
      var cols := map[ToDo := [t], InProgress := [], Done := []];
      Drop(cols, t.id, Some(Done)) == map[ToDo := [], InProgress := [], Done := [t.(status := Done)]]
  {
    var cols := map[ToDo := [t], InProgress := [], Done := []];
    assert t in cols[ToDo] && IdIs(t.id)(t);
    assert ColumnHolds(cols, ToDo, t.id);
    assert FindColumn(cols, t.id) == Some(ToDo);
    assert !ColumnHolds(cols, Done, Done) && !ColumnHolds(cols, InProgress, Done);
    assert !ColumnHolds(cols, ToDo, Done);
    assert FindColumn(cols, Done) == None;
    assert Filter([t], IdIsNot(t.id)) == [];
  }

  /** A ticket whose status names no column is dropped by the grouping. */
  lemma UnknownStatusDropped(t: Ticket)
    requires t.status !in ColumnOrder
    ensures Group([t]) == EmptyColumns
  {
    assert [t][..0] == [];
  }

  // ---------------------------------------------------------------------------
  // The expanded ticket (handleToggleDescription)
  // ---------------------------------------------------------------------------

  /** Toggling collapses the expanded ticket and otherwise makes this one the only expanded one. */
  function Toggle(expanded: Option<string>, ticketId: string): (r: Option<string>)
    ensures r.None? <==> expanded == Some(ticketId)
    ensures r.Some? ==> r.value == ticketId
  {
    if expanded == Some(ticketId) then None else Some(ticketId)
  }

  lemma ToggleTwiceCollapses(expanded: Option<string>, ticketId: string)
    requires expanded != Some(ticketId)
    ensures Toggle(Toggle(expanded, ticketId), ticketId) == None
  {
  }

  // ---------------------------------------------------------------------------
  // The board component's state
  // ---------------------------------------------------------------------------

  class Board {
    var columns: Columns
    var expanded: Option<string>

    ghost predicate Valid()
      reads this
    {
      WellFormed(columns)
    }

    /** The initial state: three empty columns, nothing expanded. */
    constructor ()
      ensures Valid()
      ensures columns == EmptyColumns && expanded == None
    {
      columns := EmptyColumns;
      expanded := None;
    }

    /** The grouping step of `fetchTickets`, given the list the server returned. */
    method Load(tickets: seq<Ticket>)
      modifies this
      ensures Valid()
      ensures columns == Group(tickets) && expanded == old(expanded)
      ensures Total(columns) == |Filter(tickets, KnownStatus())|
      ensures DistinctIds(tickets) ==> UniqueIds(columns)
    {
      var grouped := EmptyColumns;
      var i := 0;
      while i < |tickets|
        invariant 0 <= i <= |tickets|
        invariant grouped == Group(tickets[..i])
      {
        var t := tickets[i];
        if t.status in grouped {
          grouped := grouped[t.status := grouped[t.status] + [t]];
        }
        assert tickets[..i + 1][..i] == tickets[..i];
        i := i + 1;
      }
      assert tickets[..|tickets|] == tickets;
      GroupIsPartition(tickets);
      GroupKeepsTickets(tickets);
      columns := grouped;
    }

    /** `handleDragEnd` on a drop of ticket `activeId` over `overId`; None when there is no target. */
    method DragEnd(activeId: string, overId: Option<string>)
      requires Valid()
      modifies this
      ensures Valid()
      ensures columns == Drop(old(columns), activeId, overId) && expanded == old(expanded)
      ensures UniqueIds(old(columns)) ==> UniqueIds(columns) && Total(columns) == Total(old(columns))
    {
      if overId.None? {
        return;
      }
      var fromColumn := FindColumn(columns, activeId);
      var toColumn := FindColumn(columns, overId.value);
      if toColumn.None? && overId.value in ColumnOrder {
        toColumn := Some(overId.value);
      }
      assert toColumn == ResolveDestination(columns, overId.value);
      if fromColumn.None? || toColumn.None? || fromColumn.value == toColumn.value {
        return;
      }
      var ticket := Find(columns[fromColumn.value], IdIs(activeId));
      if ticket.None? {
        return;
      }
      ghost var before := columns;
      assert DropMove(before, activeId, overId) == Some((fromColumn.value, toColumn.value));
      var newFrom := Filter(columns[fromColumn.value], IdIsNot(activeId));
      var newTo := columns[toColumn.value] + [ticket.value.(status := toColumn.value)];
      columns := columns[fromColumn.value := newFrom][toColumn.value := newTo];
      assert columns == MoveTicket(before, activeId, fromColumn.value, toColumn.value);
      DropPreservesWellFormed(before, activeId, overId);
      DropKeepsTickets(before, activeId, overId);
    }

    /** `handleToggleDescription` */
    method ToggleDescription(ticketId: string)
      requires Valid()
      modifies this
      ensures Valid()
      ensures expanded == Toggle(old(expanded), ticketId) && columns == old(columns)
    {
      expanded := Toggle(expanded, ticketId);
    }
  }
}
