/**
 * The board's derived view and its drag-and-drop handlers: the tasks are
 * filtered by search text and priority, stably sorted by due date (undated
 * tasks last in both directions) and split into the three status columns; a
 * drop on a column dispatches `moveTask`.
 */
module BoardColumns {
  import opened Types
  import opened Text
  import opened Arrays
  import opened BoardSlice

  /** `COLUMNS`: the three statuses, in display order. */
  const Columns: seq<Status> := [Todo, Doing, Done]

  // ---------------------------------------------------------------- filters

  /** The lower-cased title contains the lower-cased search text. */
  predicate MatchesSearch(t: Task, search: string)
  {
    Includes(Lower(t.title), Lower(search))
  }

  function SearchTest(search: string): Task -> bool
  {
    (t: Task) => MatchesSearch(t, search)
  }

  /**
   * `if (filters.search) filtered = filtered.filter(...)`: an empty search
   * passes every task; otherwise exactly the matching tasks are kept.
   */
  function SearchFilter(tasks: seq<Task>, search: string): (r: seq<Task>)
    ensures search == [] ==> r == tasks
    ensures r == Filter(tasks, SearchTest(search))
    ensures forall t :: multiset(r)[t] == if MatchesSearch(t, search) then multiset(tasks)[t] else 0
  {
    var r := if search == [] then tasks else Filter(tasks, SearchTest(search));
    assert r == Filter(tasks, SearchTest(search)) by {
      if search == [] {
        forall k | 0 <= k < |tasks| ensures SearchTest(search)(tasks[k]) {
          assert Lower(search) == [];
          IncludesEmpty(Lower(tasks[k].title));
        }
        FilterAll(tasks, SearchTest(search));
      }
    }
    assert forall t :: multiset(r)[t] == if MatchesSearch(t, search) then multiset(tasks)[t] else 0 by {
      forall t: Task ensures multiset(r)[t] == if MatchesSearch(t, search) then multiset(tasks)[t] else 0 {
        if search == [] {
          assert Lower(search) == [];
          IncludesEmpty(Lower(t.title));
        } else {
          FilterCount(tasks, SearchTest(search), t);
        }
      }
    }
    r
  }

  /** The priority filter is in force: a non-empty priority name is selected. */
  predicate PriorityOn(priority: Option<string>)
  {
    priority.Some? && priority.value != []
  }

  /** The task passes the priority filter. */
  predicate MatchesPriority(t: Task, priority: Option<string>)
  {
    !PriorityOn(priority) || PriorityName(t.priority) == priority.value
  }

  function PriorityTest(priority: Option<string>): Task -> bool
  {
    (t: Task) => MatchesPriority(t, priority)
  }

  /**
   * `if (filters.priority) filtered = filtered.filter(...)`: no selected
   * priority passes every task; otherwise exactly the tasks of that priority are kept.
   */
  function PriorityFilter(tasks: seq<Task>, priority: Option<string>): (r: seq<Task>)
    ensures !PriorityOn(priority) ==> r == tasks
    ensures r == Filter(tasks, PriorityTest(priority))
    ensures forall t :: multiset(r)[t] == if MatchesPriority(t, priority) then multiset(tasks)[t] else 0
  {
    var r := if PriorityOn(priority) then Filter(tasks, PriorityTest(priority)) else tasks;
    assert r == Filter(tasks, PriorityTest(priority)) by {
      if !PriorityOn(priority) {
        FilterAll(tasks, PriorityTest(priority));
      }
    }
    assert forall t :: multiset(r)[t] == if MatchesPriority(t, priority) then multiset(tasks)[t] else 0 by {
      forall t: Task ensures multiset(r)[t] == if MatchesPriority(t, priority) then multiset(tasks)[t] else 0 {
        FilterCount(tasks, PriorityTest(priority), t);
      }
    }
    r
  }

  /** The task survives both filters. */
  predicate Passes(t: Task, filters: Filters)
  {
    MatchesSearch(t, filters.search) && MatchesPriority(t, filters.priority)
  }

  function PassTest(filters: Filters): Task -> bool
  {
    (t: Task) => Passes(t, filters)
  }

  /** The two filters in turn keep exactly the tasks that pass both, in board order. */
  lemma BothFilters(tasks: seq<Task>, filters: Filters)
    ensures PriorityFilter(SearchFilter(tasks, filters.search), filters.priority) == Filter(tasks, PassTest(filters))
  {
    var search, priority := SearchTest(filters.search), PriorityTest(filters.priority);
    FilterFilter(tasks, search, priority);
    FilterSameTest(tasks, Both(search, priority), PassTest(filters));
  }

  // ---------------------------------------------------------------- due-date sort

  /** `!task.dueDate` is false: the task has a non-empty due date. */
  predicate Dated(t: Task)
  {
    t.dueDate.Some? && t.dueDate.value != []
  }

  /** The comparator handed to `sort`; `timeOf` stands for `new Date(d).getTime()`. */
  function Compare(a: Task, b: Task, order: SortOrder, timeOf: string -> int): (r: int)
    ensures !Dated(a) && Dated(b) ==> r > 0
    ensures Dated(a) && !Dated(b) ==> r < 0
    ensures Dated(a) && Dated(b) ==>
      (r <= 0 <==> if order == Asc then timeOf(a.dueDate.value) <= timeOf(b.dueDate.value)
                   else timeOf(a.dueDate.value) >= timeOf(b.dueDate.value))
    ensures r == 0 <==> DueKey(a, timeOf) == DueKey(b, timeOf)
  {
    if !Dated(a) && !Dated(b) then 0
    else if !Dated(a) then 1
    else if !Dated(b) then -1
    else
      var dateA := timeOf(a.dueDate.value);
      var dateB := timeOf(b.dueDate.value);
      if order == Asc then dateA - dateB else dateB - dateA
  }

  /** What the comparator looks at: the due date's time value, or nothing for an undated task. */
  function DueKey(t: Task, timeOf: string -> int): Option<int>
  {
    if Dated(t) then Some(timeOf(t.dueDate.value)) else None
  }

  /** `a` may stand before `b`. */
  predicate InOrder(a: Task, b: Task, order: SortOrder, timeOf: string -> int)
  {
    Compare(a, b, order, timeOf) <= 0
  }

  /** Every pair of tasks is in comparator order. */
  predicate SortedByDue(s: seq<Task>, order: SortOrder, timeOf: string -> int)
  {
    forall i, j :: 0 <= i < j < |s| ==> InOrder(s[i], s[j], order, timeOf)
  }

  /**
   * Inserting into a sorted sequence: `t` goes after the tasks that strictly
   * precede it and before the first one that does not, so it lands in front
   * of the tasks with its own key.
   */
  function Insert(t: Task, s: seq<Task>, order: SortOrder, timeOf: string -> int): (r: seq<Task>)
    ensures multiset(r) == multiset(s) + multiset{t}
    ensures |r| == |s| + 1
  {
    if s == [] then [t]
    else if Compare(s[0], t, order, timeOf) < 0 then
      var rest := Insert(t, s[1..], order, timeOf);
      assert s == [s[0]] + s[1..];
      [s[0]] + rest
    else [t] + s
  }

  /** Comparator order is total: when `a` does not precede `b`, `b` may precede `a`. */
  lemma InOrderFlip(a: Task, b: Task, order: SortOrder, timeOf: string -> int)
    requires Compare(a, b, order, timeOf) >= 0
    ensures InOrder(b, a, order, timeOf)
  {
  }

  /** Comparator order is transitive. */
  lemma InOrderTrans(a: Task, b: Task, c: Task, order: SortOrder, timeOf: string -> int)
    requires InOrder(a, b, order, timeOf) && InOrder(b, c, order, timeOf)
    ensures InOrder(a, c, order, timeOf)
  {
  }

  /** A task that may precede every task of a sorted sequence can head it. */
  lemma SortedCons(h: Task, s: seq<Task>, order: SortOrder, timeOf: string -> int)
    requires SortedByDue(s, order, timeOf)
    requires forall k :: 0 <= k < |s| ==> InOrder(h, s[k], order, timeOf)
    ensures SortedByDue([h] + s, order, timeOf)
  {
    var r := [h] + s;
    forall i, j | 0 <= i < j < |r| ensures InOrder(r[i], r[j], order, timeOf) {
      assert r[j] == s[j - 1];
      if i > 0 {
        assert r[i] == s[i - 1];
      }
    }
  }

  /** Every task of `Insert(t, s)` is `t` or a task of `s`. */
  lemma {:induction false} InsertElements(t: Task, s: seq<Task>, order: SortOrder, timeOf: string -> int)
    ensures forall k :: 0 <= k < |Insert(t, s, order, timeOf)| ==>
      Insert(t, s, order, timeOf)[k] == t || Insert(t, s, order, timeOf)[k] in s
  {
    if s != [] && Compare(s[0], t, order, timeOf) < 0 {
      InsertElements(t, s[1..], order, timeOf);
      var rest := Insert(t, s[1..], order, timeOf);
      forall k | 0 <= k < |rest| ensures rest[k] == t || rest[k] in s {
        if rest[k] != t {
          assert rest[k] in s[1..];
        }
      }
    }
  }

  lemma {:induction false} InsertSorted(t: Task, s: seq<Task>, order: SortOrder, timeOf: string -> int)
    requires SortedByDue(s, order, timeOf)
    ensures SortedByDue(Insert(t, s, order, timeOf), order, timeOf)
  {
    if s == [] {
    } else if Compare(s[0], t, order, timeOf) < 0 {
      var rest := Insert(t, s[1..], order, timeOf);
      assert SortedByDue(s[1..], order, timeOf) by {
        forall i, j | 0 <= i < j < |s[1..]| ensures InOrder(s[1..][i], s[1..][j], order, timeOf) {
          assert s[1..][i] == s[i + 1] && s[1..][j] == s[j + 1];
        }
      }
      InsertSorted(t, s[1..], order, timeOf);
      InsertElements(t, s[1..], order, timeOf);
      forall k | 0 <= k < |rest| ensures InOrder(s[0], rest[k], order, timeOf) {
        if rest[k] != t {
          var m :| 0 <= m < |s[1..]| && s[1..][m] == rest[k];
          assert s[m + 1] == rest[k];
        }
      }
      SortedCons(s[0], rest, order, timeOf);
    } else {
      InOrderFlip(s[0], t, order, timeOf);
      forall k | 0 <= k < |s| ensures InOrder(t, s[k], order, timeOf) {
        if k > 0 {
          InOrderTrans(t, s[0], s[k], order, timeOf);
        }
      }
      SortedCons(t, s, order, timeOf);
    }
  }

  /**
   * `[...filtered].sort(comparator)`: a stable insertion sort, since the
   * ECMAScript 2019 edition requires `Array.prototype.sort` to be stable.
   * The result is a permutation of the input in comparator order.
   */
  function SortByDue(s: seq<Task>, order: SortOrder, timeOf: string -> int): (r: seq<Task>)
    ensures multiset(r) == multiset(s)
    ensures SortedByDue(r, order, timeOf)
  {
    if s == [] then []
    else
      var rest := SortByDue(s[1..], order, timeOf);
      InsertSorted(s[0], rest, order, timeOf);
      assert s == [s[0]] + s[1..];
      Insert(s[0], rest, order, timeOf)
  }

  /** One step of the sort: the first task is inserted into the sorted rest. */
  lemma SortByDueStep(s: seq<Task>, order: SortOrder, timeOf: string -> int)
    requires s != []
    ensures SortByDue(s, order, timeOf) == Insert(s[0], SortByDue(s[1..], order, timeOf), order, timeOf)
  {
  }

  /** Tasks whose due-date key is `k`: the tasks the comparator calls equal to each other. */
  function SameKey(k: Option<int>, timeOf: string -> int): Task -> bool
  {
    (t: Task) => DueKey(t, timeOf) == k
  }

  /** Insertion moves `t` only past tasks with another key. */
  lemma {:induction false} InsertStable(t: Task, s: seq<Task>, order: SortOrder, timeOf: string -> int, k: Option<int>)
    ensures Filter(Insert(t, s, order, timeOf), SameKey(k, timeOf)) == Filter([t] + s, SameKey(k, timeOf))
  {
    var p := SameKey(k, timeOf);
    if s != [] && Compare(s[0], t, order, timeOf) < 0 {
      var rest := Insert(t, s[1..], order, timeOf);
      assert Insert(t, s, order, timeOf) == [s[0]] + rest;
      InsertStable(t, s[1..], order, timeOf, k);
      FilterCons(s[0], rest, [t] + s[1..], p);
      FilterSwap(s[0], t, s[1..], p);
      assert [s[0]] + s[1..] == s;
    }
  }

  /**
   * Stability: among the tasks the comparator calls equal (the same due
   * date, or both undated) the sorted order is the input order.
   */
  lemma {:induction false} SortStable(s: seq<Task>, order: SortOrder, timeOf: string -> int, k: Option<int>)
    ensures Filter(SortByDue(s, order, timeOf), SameKey(k, timeOf)) == Filter(s, SameKey(k, timeOf))
  {
    if s != [] {
      var p := SameKey(k, timeOf);
      var rest := SortByDue(s[1..], order, timeOf);
      SortByDueStep(s, order, timeOf);
      InsertStable(s[0], rest, order, timeOf, k);
      SortStable(s[1..], order, timeOf, k);
      FilterCons(s[0], rest, s[1..], p);
      assert [s[0]] + s[1..] == s;
    }
  }

  /**
   * What comparator order means: an undated task is followed only by undated
   * ones, and dated tasks rise in time for `asc` and fall for `desc`.
   */
  lemma DueDateOrder(r: seq<Task>, order: SortOrder, timeOf: string -> int, i: int, j: int)
    requires SortedByDue(r, order, timeOf)
    requires 0 <= i < j < |r|
    ensures !Dated(r[i]) ==> !Dated(r[j])
    ensures Dated(r[i]) && Dated(r[j]) && order == Asc ==>
      timeOf(r[i].dueDate.value) <= timeOf(r[j].dueDate.value)
    ensures Dated(r[i]) && Dated(r[j]) && order == Desc ==>
      timeOf(r[i].dueDate.value) >= timeOf(r[j].dueDate.value)
  {
    assert InOrder(r[i], r[j], order, timeOf);
  }

  // ---------------------------------------------------------------- the view

  /** `filteredAndSortedTasks`: search filter, then priority filter, then the stable due-date sort. */
  function FilteredAndSorted(tasks: seq<Task>, filters: Filters, timeOf: string -> int): (r: seq<Task>)
    ensures SortedByDue(r, filters.sort, timeOf)
    ensures forall t :: multiset(r)[t] == if Passes(t, filters) then multiset(tasks)[t] else 0
    ensures forall k :: Filter(r, SameKey(k, timeOf)) == Filter(tasks, Both(PassTest(filters), SameKey(k, timeOf)))
  {
    var searched := SearchFilter(tasks, filters.search);
    var filtered := PriorityFilter(searched, filters.priority);
    var r := SortByDue(filtered, filters.sort, timeOf);
    assert forall k :: Filter(r, SameKey(k, timeOf)) == Filter(tasks, Both(PassTest(filters), SameKey(k, timeOf))) by {
      BothFilters(tasks, filters);
      forall k ensures Filter(r, SameKey(k, timeOf)) == Filter(tasks, Both(PassTest(filters), SameKey(k, timeOf))) {
        SortStable(filtered, filters.sort, timeOf, k);
        FilterFilter(tasks, PassTest(filters), SameKey(k, timeOf));
      }
    }
    r
  }

  function StatusTest(column: Status): Task -> bool
  {
    (t: Task) => t.status == column
  }

  /** `COLUMNS.reduce(...)`: each column in turn gets the sorted tasks with its status. */
  function AddColumns(columns: seq<Status>, acc: map<Status, seq<Task>>, sorted: seq<Task>): (r: map<Status, seq<Task>>)
    ensures forall c :: c in r <==> c in acc || c in columns
    ensures forall c :: c in columns ==> r[c] == Filter(sorted, StatusTest(c))
    ensures forall c :: c in acc && c !in columns ==> r[c] == acc[c]
  {
    if columns == [] then acc
    else AddColumns(columns[1..], acc[columns[0] := Filter(sorted, StatusTest(columns[0]))], sorted)
  }

  /** `tasksByColumn`: one entry per status, each the sorted tasks of that status, in sorted order. */
  function TasksByColumn(sorted: seq<Task>): (r: map<Status, seq<Task>>)
    ensures forall c: Status :: c in r && r[c] == Filter(sorted, StatusTest(c))
  {
    var r := AddColumns(Columns, map[], sorted);
    assert forall c: Status :: c in Columns by {
      forall c: Status ensures c in Columns {
        if c == Todo {
          assert Columns[0] == c;
        } else if c == Doing {
          assert Columns[1] == c;
        } else {
          assert Columns[2] == c;
        }
      }
    }
    r
  }

  /**
   * A column of the board shows exactly the tasks that pass the filters and
   * have that status, as often as the board holds them, in due-date order.
   */
  lemma ColumnContents(tasks: seq<Task>, filters: Filters, timeOf: string -> int, column: Status)
    ensures var shown := TasksByColumn(FilteredAndSorted(tasks, filters, timeOf))[column];
      && SortedByDue(shown, filters.sort, timeOf)
      && forall t: Task :: multiset(shown)[t] ==
           if t.status == column && Passes(t, filters) then multiset(tasks)[t] else 0
  {
    var sorted := FilteredAndSorted(tasks, filters, timeOf);
    var shown := TasksByColumn(sorted)[column];
    FilterKeepsOrder(sorted, StatusTest(column),
      (a: Task, b: Task) => InOrder(a, b, filters.sort, timeOf));
    forall t: Task ensures multiset(shown)[t] ==
      if t.status == column && Passes(t, filters) then multiset(tasks)[t] else 0
    {
      FilterCount(sorted, StatusTest(column), t);
    }
  }

  /** Together the three columns show every filtered task exactly as often as the filtered view holds it. */
  lemma ColumnsCoverOnce(sorted: seq<Task>, t: Task)
    ensures var columns := TasksByColumn(sorted);
      multiset(columns[Todo])[t] + multiset(columns[Doing])[t] + multiset(columns[Done])[t]
        == multiset(sorted)[t]
  {
    FilterCount(sorted, StatusTest(Todo), t);
    FilterCount(sorted, StatusTest(Doing), t);
    FilterCount(sorted, StatusTest(Done), t);
  }

  // ---------------------------------------------------------------- drag and drop

  /** A dispatched `moveTask` action. */
  datatype MoveRequest = MoveRequest(taskId: string, newStatus: Status)

  /** The column a droppable id names: droppables are registered under the column titles. */
  function ColumnNamed(id: string): (r: Option<Status>)
    ensures r.Some? ==> StatusName(r.value) == id
    ensures forall c: Status :: StatusName(c) == id ==> r == Some(c)
  {
    if id == "Todo" then Some(Todo)
    else if id == "Doing" then Some(Doing)
    else if id == "Done" then Some(Done)
    else None
  }

  /** The `activeTask` state slot of the board component. */
  class ColumnsView {
    var activeTask: Option<Task>

    constructor ()
      ensures activeTask == None
    {
      activeTask := None;
    }

    /** `handleDragStart`: the active task is the dragged task, or none if it is not on the board. */
    method HandleDragStart(board: Board, activeId: string)
      modifies this
      ensures activeTask == Find(board.tasks, activeId)
      ensures activeTask.Some? ==> activeTask.value in board.tasks && activeTask.value.id == activeId
    {
      activeTask := Find(board.tasks, activeId);
    }

    /**
     * `handleDragEnd`: the active task is always cleared; a drop outside any
     * column dispatches nothing, a drop on a column dispatches one `moveTask`.
     */
    method HandleDragEnd(board: Board, activeId: string, overId: Option<string>, now: string)
      returns (dispatched: Option<MoveRequest>)
      requires overId.Some? ==> ColumnNamed(overId.value).Some?
      modifies this, board
      ensures activeTask == None
      ensures overId.None? ==> dispatched == None && unchanged(board)
      ensures overId.Some? ==> var column := ColumnNamed(overId.value).value;
        && dispatched == Some(MoveRequest(activeId, column))
        && board.tasks == MoveTasks(old(board.tasks), activeId, column)
        && (if MoveChanges(old(board.tasks), activeId, column) then
              && board.activityLog == Record(old(board.activityLog),
                   LogEntry(MovedMessage(Find(old(board.tasks), activeId).value.title, column), now))
              && board.writes == old(board.writes) + Persisted(board.tasks, board.activityLog)
            else
              board.activityLog == old(board.activityLog) && board.writes == old(board.writes))
        && board.filters == old(board.filters)
    {
      activeTask := None;
      if overId.None? {
        return None;
      }
      var newStatus := ColumnNamed(overId.value).value;
      board.MoveTask(activeId, newStatus, now);
      dispatched := Some(MoveRequest(activeId, newStatus));
    }
  }
}
