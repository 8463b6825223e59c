/**
 * The board reducer: the task list in insertion order, the activity log
 * (newest first, at most seven entries) and the filter criteria. Every
 * mutation that changes tasks or the log mirrors them to browser storage;
 * those writes are recorded in the ghost trace `writes`.
 */
module BoardSlice {
  import opened Types
  import opened Arrays

  /** The activity log keeps this many entries. */
  const LogCapacity: nat := 7

  datatype SortOrder = Asc | Desc

  /** Search text, an optional priority name, and the due-date direction. */
  datatype Filters = Filters(search: string, priority: Option<string>, sort: SortOrder)

  const DefaultFilters: Filters := Filters("", None, Asc)

  /** A value handed to `saveToStorage`. */
  datatype Stored = TaskList(tasks: seq<Task>) | EntryList(entries: seq<LogEntry>)

  /** One `saveToStorage(key, value)` call. */
  datatype StorageWrite = StorageWrite(key: string, value: Stored)

  /** The two writes every task mutation ends with: the tasks, then the log. */
  function Persisted(tasks: seq<Task>, log: seq<LogEntry>): (r: seq<StorageWrite>)
    ensures |r| == 2
    ensures r[0].key == "tasks" && r[0].value == TaskList(tasks)
    ensures r[1].key == "activityLog" && r[1].value == EntryList(log)
  {
    [StorageWrite("tasks", TaskList(tasks)), StorageWrite("activityLog", EntryList(log))]
  }

  /** The opening of every task message: the title in double quotes follows. */
  const TaskPrefix: string := "Task \""

  /** `Task "<title>" created`: the title stands between the quotes. */
  function CreatedMessage(title: string): (r: string)
    ensures |r| == |title| + 15
    ensures r[..6] == TaskPrefix && r[6..6 + |title|] == title && r[6 + |title|..] == "\" created"
  {
    TaskPrefix + title + "\" created"
  }

  /** `Task "<title>" edited`. */
  function EditedMessage(title: string): (r: string)
    ensures |r| == |title| + 14
    ensures r[..6] == TaskPrefix && r[6..6 + |title|] == title && r[6 + |title|..] == "\" edited"
  {
    TaskPrefix + title + "\" edited"
  }

  /** `Task "<title>" deleted`. */
  function DeletedMessage(title: string): (r: string)
    ensures |r| == |title| + 15
    ensures r[..6] == TaskPrefix && r[6..6 + |title|] == title && r[6 + |title|..] == "\" deleted"
  {
    TaskPrefix + title + "\" deleted"
  }

  /** `Task "<title>" moved to <status>`, the status written as its column name. */
  function MovedMessage(title: string, s: Status): (r: string)
    ensures |r| == |title| + 17 + |StatusName(s)|
    ensures r[..6] == TaskPrefix && r[6..6 + |title|] == title
    ensures r[6 + |title|..] == "\" moved to " + StatusName(s)
  {
    TaskPrefix + title + "\" moved to " + StatusName(s)
  }

  /** Each kind of message names its task: different titles give different messages. */
  lemma MessagesNameTheTitle(a: string, b: string, s: Status)
    ensures CreatedMessage(a) == CreatedMessage(b) ==> a == b
    ensures EditedMessage(a) == EditedMessage(b) ==> a == b
    ensures DeletedMessage(a) == DeletedMessage(b) ==> a == b
    ensures MovedMessage(a, s) == MovedMessage(b, s) ==> a == b
  {
    var ma, mb := CreatedMessage(a), CreatedMessage(b);
    if ma == mb {
      assert a == ma[6..6 + |a|] == mb[6..6 + |b|] == b;
    }
    var ea, eb := EditedMessage(a), EditedMessage(b);
    if ea == eb {
      assert a == ea[6..6 + |a|] == eb[6..6 + |b|] == b;
    }
    var da, db := DeletedMessage(a), DeletedMessage(b);
    if da == db {
      assert a == da[6..6 + |a|] == db[6..6 + |b|] == b;
    }
    var va, vb := MovedMessage(a, s), MovedMessage(b, s);
    if va == vb {
      assert a == va[6..6 + |a|] == vb[6..6 + |b|] == b;
    }
  }

  const ResetMessage: string := "Board reset"

  /**
   * `log.unshift(entry)` followed by `slice(0, 7)` when the log grew past
   * seven: the new entry is first and the oldest entries fall off the end.
   */
  function Record(log: seq<LogEntry>, entry: LogEntry): (r: seq<LogEntry>)
    ensures |r| == if |log| < LogCapacity then |log| + 1 else LogCapacity
    ensures r[0] == entry
    ensures r[1..] == log[..|r| - 1]
  {
    var grown := [entry] + log;
    if |grown| > LogCapacity then grown[..LogCapacity] else grown
  }

  /** The log after recording `entries` one after the other, first to last. */
  function RecordAll(log: seq<LogEntry>, entries: seq<LogEntry>): seq<LogEntry>
    decreases |entries|
  {
    if entries == [] then log else RecordAll(Record(log, entries[0]), entries[1..])
  }

  function Reversed<T>(s: seq<T>): (r: seq<T>)
    ensures |r| == |s|
    ensures forall i :: 0 <= i < |s| ==> r[i] == s[|s| - 1 - i]
  {
    if s == [] then [] else Reversed(s[1..]) + [s[0]]
  }

  /** The first seven elements, or all of them when there are fewer. */
  function Newest<T>(s: seq<T>): seq<T>
  {
    if |s| <= LogCapacity then s else s[..LogCapacity]
  }

  /** Keeping the newest entries twice keeps the same ones. */
  lemma NewestOfNewest<T>(front: seq<T>, back: seq<T>)
    ensures Newest(front + Newest(back)) == Newest(front + back)
  {
    if |back| > LogCapacity {
      if |front| >= LogCapacity {
        assert (front + Newest(back))[..LogCapacity] == front[..LogCapacity];
        assert (front + back)[..LogCapacity] == front[..LogCapacity];
      } else {
        var n := LogCapacity;
        assert (front + back[..n])[..n] == front + back[..n - |front|];
        assert (front + back)[..n] == front + back[..n - |front|];
      }
    }
  }

  /**
   * After any non-empty run of recordings the log holds the most recent
   * entries, newest first, at most seven of them, and the oldest are the
   * ones evicted.
   */
  lemma {:induction false} RecordAllKeepsNewest(log: seq<LogEntry>, entries: seq<LogEntry>)
    requires entries != []
    ensures RecordAll(log, entries) == Newest(Reversed(entries) + log)
    decreases |entries|
  {
    var first := entries[0];
    var rest := entries[1..];
    assert Record(log, first) == Newest([first] + log);
    assert Reversed(entries) == Reversed(rest) + [first];
    if rest == [] {
      assert Reversed(entries) + log == [first] + log;
    } else {
      RecordAllKeepsNewest(Record(log, first), rest);
      NewestOfNewest(Reversed(rest), [first] + log);
      assert Reversed(rest) + ([first] + log) == Reversed(entries) + log;
    }
  }

  /** Whether some task on the board has identifier `id`. */
  predicate HasId(tasks: seq<Task>, id: string)
  {
    exists k :: 0 <= k < |tasks| && tasks[k].id == id
  }

  /** `tasks.findIndex((t) => t.id === id)`: the first position with that id, or -1. */
  function FindIndex(tasks: seq<Task>, id: string): (r: int)
    ensures -1 <= r < |tasks|
    ensures r == -1 <==> !HasId(tasks, id)
    ensures r >= 0 ==> tasks[r].id == id && forall k :: 0 <= k < r ==> tasks[k].id != id
  {
    if tasks == [] then -1
    else if tasks[0].id == id then 0
    else
      var k := FindIndex(tasks[1..], id);
      if k == -1 then -1 else k + 1
  }

  /** `tasks.find((t) => t.id === id)`: the first task with that id, if any. */
  function Find(tasks: seq<Task>, id: string): (r: Option<Task>)
    ensures r.None? <==> !HasId(tasks, id)
    ensures r.Some? ==> r.value.id == id && r.value == tasks[FindIndex(tasks, id)]
  {
    var k := FindIndex(tasks, id);
    if k == -1 then None else Some(tasks[k])
  }

  /** The test `deleteTask` filters with: the task has another id. */
  function OtherId(id: string): Task -> bool
  {
    (t: Task) => t.id != id
  }

  /** `tasks.filter((t) => t.id !== id)`: every task with that id removed, the rest in order. */
  function RemoveId(tasks: seq<Task>, id: string): (r: seq<Task>)
    ensures !HasId(r, id)
    ensures !HasId(tasks, id) ==> r == tasks
    ensures forall t :: t in tasks && t.id != id ==> t in r
  {
    var r := Filter(tasks, OtherId(id));
    assert !HasId(tasks, id) ==> r == tasks by {
      if !HasId(tasks, id) {
        FilterAll(tasks, OtherId(id));
      }
    }
    forall t | t in tasks && t.id != id ensures t in r {
      FilterCount(tasks, OtherId(id), t);
    }
    r
  }

  /** Removal keeps every task with another id exactly as often as the board held it. */
  lemma RemoveIdCount(tasks: seq<Task>, id: string, t: Task)
    ensures multiset(RemoveId(tasks, id))[t] == if t.id == id then 0 else multiset(tasks)[t]
  {
    FilterCount(tasks, OtherId(id), t);
  }

  /** Removal works part by part, so the remaining tasks keep their relative order. */
  lemma RemoveIdSplit(front: seq<Task>, back: seq<Task>, id: string)
    ensures RemoveId(front + back, id) == RemoveId(front, id) + RemoveId(back, id)
  {
    FilterAppend(front, back, OtherId(id));
  }

  /** Removal keeps the identifiers of a board distinct. */
  lemma RemoveIdUnique(tasks: seq<Task>, id: string)
    requires UniqueIds(tasks)
    ensures UniqueIds(RemoveId(tasks, id))
  {
    FilterKeepsOrder(tasks, OtherId(id), (a: Task, b: Task) => a.id != b.id);
  }

  /** Removing an identifier a second time changes nothing. */
  lemma DeleteTwice(tasks: seq<Task>, id: string)
    ensures RemoveId(RemoveId(tasks, id), id) == RemoveId(tasks, id)
  {
  }

  /** The first task with an identifier is the one `findIndex` reports. */
  lemma FindIndexOfFirst(tasks: seq<Task>, id: string, k: nat)
    requires k < |tasks| && tasks[k].id == id
    requires forall j :: 0 <= j < k ==> tasks[j].id != id
    ensures FindIndex(tasks, id) == k
  {
  }

  /** The tasks after `moveTask(id, status)`: only the first task with that id changes, and only its status. */
  function MoveTasks(tasks: seq<Task>, id: string, status: Status): (r: seq<Task>)
    ensures |r| == |tasks|
    ensures forall k :: 0 <= k < |r| && k != FindIndex(tasks, id) ==> r[k] == tasks[k]
    ensures HasId(tasks, id) ==> r[FindIndex(tasks, id)] == tasks[FindIndex(tasks, id)].(status := status)
    ensures HasId(tasks, id) ==> Find(r, id) == Some(Find(tasks, id).value.(status := status))
    ensures !HasId(tasks, id) ==> r == tasks
  {
    var k := FindIndex(tasks, id);
    if k == -1 then tasks
    else
      var r := tasks[k := tasks[k].(status := status)];
      FindIndexOfFirst(r, id, k);
      r
  }

  /** Whether `moveTask(id, status)` changes the board: the task exists and has another status. */
  predicate MoveChanges(tasks: seq<Task>, id: string, status: Status)
  {
    match Find(tasks, id)
    case None => false
    case Some(t) => t.status != status
  }

  /** Moving to the status a task already has leaves the tasks as they are. */
  lemma MoveToSameStatus(tasks: seq<Task>, id: string, status: Status)
    requires !MoveChanges(tasks, id, status)
    ensures MoveTasks(tasks, id, status) == tasks
  {
    if HasId(tasks, id) {
      var k := FindIndex(tasks, id);
      assert tasks[k].(status := status) == tasks[k];
    }
  }

  class Board {
    var tasks: seq<Task>
    var activityLog: seq<LogEntry>
    var filters: Filters
    /** Every `saveToStorage` call so far, oldest first. */
    ghost var writes: seq<StorageWrite>

    /** `initialState`: no tasks, an empty log, default filters. */
    constructor ()
      ensures tasks == [] && activityLog == [] && filters == DefaultFilters
      ensures writes == []
    {
      tasks := [];
      activityLog := [];
      filters := DefaultFilters;
      writes := [];
    }

    /** `unshift` followed by the truncation to seven entries. */
    method Log(message: string, now: string)
      modifies this`activityLog
      ensures activityLog == Record(old(activityLog), LogEntry(message, now))
      ensures |activityLog| <= LogCapacity && activityLog[0].message == message
    {
      activityLog := [LogEntry(message, now)] + activityLog;
      if |activityLog| > LogCapacity {
        activityLog := activityLog[..LogCapacity];
      }
    }

    /** The closing `saveToStorage` calls of a task mutation. */
    method SaveBoth()
      modifies this`writes
      ensures writes == old(writes) + Persisted(tasks, activityLog)
    {
      writes := writes + [StorageWrite("tasks", TaskList(tasks))];
      writes := writes + [StorageWrite("activityLog", EntryList(activityLog))];
    }

    /** `addTask`: append the task, log its creation, persist. The caller supplies a fresh id. */
    method AddTask(task: Task, now: string)
      requires !HasId(tasks, task.id)
      modifies this
      ensures tasks == old(tasks) + [task]
      ensures activityLog == Record(old(activityLog), LogEntry(CreatedMessage(task.title), now))
      ensures filters == old(filters)
      ensures writes == old(writes) + Persisted(tasks, activityLog)
      ensures UniqueIds(old(tasks)) ==> UniqueIds(tasks)
    {
      tasks := tasks + [task];
      Log(CreatedMessage(task.title), now);
      SaveBoth();
    }

    /** `updateTask`: replace the first task with the payload's id; an unknown id is a no-op. */
    method UpdateTask(task: Task, now: string)
      modifies this
      ensures var k := FindIndex(old(tasks), task.id);
        if k == -1 then
          tasks == old(tasks) && activityLog == old(activityLog) && writes == old(writes)
        else
          && tasks == old(tasks)[k := task]
          && activityLog == Record(old(activityLog), LogEntry(EditedMessage(task.title), now))
          && writes == old(writes) + Persisted(tasks, activityLog)
      ensures filters == old(filters)
      ensures UniqueIds(old(tasks)) ==> UniqueIds(tasks)
    {
      var index := FindIndex(tasks, task.id);
      if index != -1 {
        tasks := tasks[index := task];
        Log(EditedMessage(task.title), now);
        SaveBoth();
      }
    }

    /**
     * `deleteTask`: remove every task with the id, logging the title the
     * first of them had; an unknown id is a no-op.
     */
    method DeleteTask(id: string, now: string)
      modifies this
      ensures match Find(old(tasks), id)
        case None =>
          tasks == old(tasks) && activityLog == old(activityLog) && writes == old(writes)
        case Some(t) =>
          && tasks == RemoveId(old(tasks), id)
          && activityLog == Record(old(activityLog), LogEntry(DeletedMessage(t.title), now))
          && writes == old(writes) + Persisted(tasks, activityLog)
      ensures !HasId(tasks, id)
      ensures filters == old(filters)
      ensures UniqueIds(old(tasks)) ==> UniqueIds(tasks)
    {
      if UniqueIds(tasks) {
        RemoveIdUnique(tasks, id);
      }
      var task := Find(tasks, id);
      if task.Some? {
        tasks := RemoveId(tasks, id);
        Log(DeletedMessage(task.value.title), now);
        SaveBoth();
      }
    }

    /**
     * `moveTask`: give the first task with the id the new status; a missing
     * task or an unchanged status logs and writes nothing.
     */
    method MoveTask(taskId: string, newStatus: Status, now: string)
      modifies this
      ensures tasks == MoveTasks(old(tasks), taskId, newStatus)
      ensures if MoveChanges(old(tasks), taskId, newStatus) then
          && activityLog == Record(old(activityLog),
               LogEntry(MovedMessage(Find(old(tasks), taskId).value.title, newStatus), now))
          && writes == old(writes) + Persisted(tasks, activityLog)
        else
          activityLog == old(activityLog) && writes == old(writes)
      ensures filters == old(filters)
      ensures UniqueIds(old(tasks)) ==> UniqueIds(tasks)
    {
      var task := Find(tasks, taskId);
      if task.Some? && task.value.status != newStatus {
        var index := FindIndex(tasks, taskId);
        tasks := tasks[index := task.value.(status := newStatus)];
        Log(MovedMessage(task.value.title, newStatus), now);
        SaveBoth();
      } else {
        MoveToSameStatus(tasks, taskId, newStatus);
      }
    }

    /** `resetBoard`: no tasks, `Board reset` logged, both keys written; filters untouched. */
    method ResetBoard(now: string)
      modifies this
      ensures tasks == []
      ensures activityLog == Record(old(activityLog), LogEntry(ResetMessage, now))
      ensures writes == old(writes) + Persisted([], activityLog)
      ensures filters == old(filters)
    {
      tasks := [];
      Log(ResetMessage, now);
      SaveBoth();
    }

    /** `addActivity`: log an arbitrary message and write the log only. */
    method AddActivity(message: string, now: string)
      modifies this
      ensures activityLog == Record(old(activityLog), LogEntry(message, now))
      ensures writes == old(writes) + [StorageWrite("activityLog", EntryList(activityLog))]
      ensures tasks == old(tasks) && filters == old(filters)
    {
      Log(message, now);
      writes := writes + [StorageWrite("activityLog", EntryList(activityLog))];
    }

    /** `setSearch`: replaces the search text only; nothing is logged or written. */
    method SetSearch(search: string)
      modifies this`filters
      ensures filters == old(filters).(search := search)
    {
      filters := filters.(search := search);
    }

    /** `setPriority`: replaces the priority filter only. */
    method SetPriority(priority: Option<string>)
      modifies this`filters
      ensures filters == old(filters).(priority := priority)
    {
      filters := filters.(priority := priority);
    }

    /** `setSort`: replaces the sort direction only. */
    method SetSort(sort: SortOrder)
      modifies this`filters
      ensures filters == old(filters).(sort := sort)
    {
      filters := filters.(sort := sort);
    }

    /** `loadTasks`: installs the hydrated tasks as they are; nothing is logged or written. */
    method LoadTasks(loaded: seq<Task>)
      modifies this`tasks
      ensures tasks == loaded
    {
      tasks := loaded;
    }

    /** `loadActivityLog`: installs the hydrated log as it is, without truncating it. */
    method LoadActivityLog(loaded: seq<LogEntry>)
      modifies this`activityLog
      ensures activityLog == loaded
    {
      activityLog := loaded;
    }
  }
}
