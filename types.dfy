/** The board's records: a task, an activity-log entry and the signed-in user. */
module Types {

  datatype Option<+T> = None | Some(value: T)

  datatype Result<+T, +E> = Success(value: T) | Failure(error: E)

  datatype Priority = Low | Medium | High

  /** The three workflow states; each is also a board column and a drop target. */
  datatype Status = Todo | Doing | Done

  /**
   * A task. `description` and `dueDate` are optional text; `dueDate` is the
   * text of a calendar date, turned into a time value only when the board is sorted.
   */
  datatype Task = Task(
    id: string,
    title: string,
    description: Option<string>,
    priority: Priority,
    dueDate: Option<string>,
    tags: seq<string>,
    createdAt: string,
    status: Status)

  /** One line of the activity log: a message and the time it was recorded. */
  datatype LogEntry = LogEntry(message: string, timestamp: string)

  datatype User = User(email: string)

  /** The literal that names a priority in the user interface and in filters. */
  function PriorityName(p: Priority): (r: string)
  {
    match p
    case Low => "Low"
    case Medium => "Medium"
    case High => "High"
  }

  /** The literal that names a status: the column title and the drop-target id. */
  function StatusName(s: Status): (r: string)
  {
    match s
    case Todo => "Todo"
    case Doing => "Doing"
    case Done => "Done"
  }

  /** No two tasks on the board share an identifier. */
  predicate UniqueIds(tasks: seq<Task>)
  {
    forall i, j :: 0 <= i < j < |tasks| ==> tasks[i].id != tasks[j].id
  }
}
