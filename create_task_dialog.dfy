/**
 * The create dialog: it checks the title, builds a new `Todo` task from the
 * form, dispatches `addTask`, and then clears the form and closes.
 */
module CreateTaskDialog {
  import opened Types
  import opened Text
  import opened TaskFields
  import opened BoardSlice

  /**
   * The validation and the task literal of `handleSubmit`. The id stands for
   * `uuidv4()` and `createdAt` for `new Date().toISOString()`.
   */
  function NewTask(form: FormInput, id: string, createdAt: string): (r: Result<Task, string>)
    ensures r.Failure? <==> AllWhitespace(form.title)
    ensures r.Failure? ==> r.error == TitleRequired
    ensures r.Success? ==>
      && FormShaped(r.value)
      && r.value.id == id && r.value.createdAt == createdAt && r.value.status == Todo
      && r.value.title == Trim(form.title)
      && r.value.priority == form.priority
      && (r.value.description.None? <==> AllWhitespace(form.description))
      && (r.value.description.Some? ==> r.value.description.value == Trim(form.description))
      && (r.value.dueDate.None? <==> form.dueDate == [])
      && (r.value.dueDate.Some? ==> r.value.dueDate.value == form.dueDate)
      && r.value.tags == ParseTags(form.tags)
      && (AllWhitespace(form.tags) ==> r.value.tags == [])
  {
    var title := Trim(form.title);
    if title == [] then Failure(TitleRequired)
    else
      Success(Task(
        id := id,
        title := title,
        description := Optional(Trim(form.description)),
        priority := form.priority,
        dueDate := Optional(form.dueDate),
        tags := ParseTags(form.tags),
        createdAt := createdAt,
        status := Todo))
  }

  /** The state of the create dialog: whether it is open, its inputs and its error text. */
  class CreateForm {
    var open: bool
    var title: string
    var description: string
    var priority: Priority
    var dueDate: string
    var tags: string
    var error: string

    /** The form's inputs as one value. */
    function Input(): FormInput
      reads this
    {
      FormInput(title, description, priority, dueDate, tags)
    }

    /** The initial `useState` values: closed, every input at its default, no error. */
    constructor ()
      ensures !open && Input() == EmptyForm && error == []
    {
      open := false;
      title, description, priority, dueDate, tags := "", "", Medium, "", "";
      error := "";
    }

    /** `onOpenChange`: the trigger button opens the dialog, Cancel closes it. */
    method SetOpen(value: bool)
      modifies this`open
      ensures open == value
    {
      open := value;
    }

    /** The `onChange` handlers of the inputs. */
    method SetInput(form: FormInput)
      modifies this`title, this`description, this`priority, this`dueDate, this`tags
      ensures Input() == form
    {
      title, description, priority, dueDate, tags := form.title, form.description, form.priority, form.dueDate, form.tags;
    }

    /** `resetForm`: every input back to its default and the error cleared; the dialog stays as it is. */
    method ResetForm()
      modifies this`title, this`description, this`priority, this`dueDate, this`tags, this`error
      ensures Input() == EmptyForm && error == []
    {
      title := "";
      description := "";
      priority := Medium;
      dueDate := "";
      tags := "";
      error := "";
    }

    /**
     * `handleSubmit`. A blank title sets the error and changes nothing else:
     * no `addTask`, no reset, the dialog stays open. Otherwise exactly one
     * `addTask` goes to the board, the form is reset and the dialog closes.
     * `id` is a fresh identifier, as `uuidv4()` provides.
     */
    method HandleSubmit(board: Board, id: string, createdAt: string, now: string)
      returns (dispatched: Option<Task>)
      requires !HasId(board.tasks, id)
      modifies this, board
      ensures AllWhitespace(old(title)) ==>
        && dispatched == None
        && error == TitleRequired
        && Input() == old(Input()) && open == old(open)
        && unchanged(board)
      ensures !AllWhitespace(old(title)) ==>
        && dispatched.Some?
        && NewTask(old(Input()), id, createdAt) == Success(dispatched.value)
        && board.tasks == old(board.tasks) + [dispatched.value]
        && board.activityLog == Record(old(board.activityLog), LogEntry(CreatedMessage(dispatched.value.title), now))
        && board.writes == old(board.writes) + Persisted(board.tasks, board.activityLog)
        && board.filters == old(board.filters)
        && Input() == EmptyForm && error == [] && !open
    {
      error := "";
      var result := NewTask(Input(), id, createdAt);
      if result.Failure? {
        error := result.error;
        return None;
      }
      board.AddTask(result.value, now);
      dispatched := Some(result.value);
      ResetForm();
      open := false;
    }
  }
}
